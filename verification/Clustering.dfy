/** Greedy time-windowed clustering: the offline harness's shrinking active list against the
    quality report's full rescan. Similarity and the centroid update are left open. */
module Clustering {

  datatype Ops<!V> = Ops(dot: (V, V) -> real, blend: (V, nat, V) -> V)

  datatype Post<V> = Post(at: real, vec: V)

  datatype Params = Params(threshold: real, window: real, span: real)

  datatype State<V> = State(clusters: seq<seq<nat>>, cent: seq<V>, last: seq<real>, first: seq<real>)

  const RECLUSTER := Params(0.75, 172800.0, 259200.0)

  ghost predicate Consistent<V>(s: State<V>) {
    && |s.clusters| == |s.cent| == |s.last| == |s.first|
    && forall c :: 0 <= c < |s.clusters| ==> s.clusters[c] != []
  }

  predicate Open<V>(s: State<V>, prm: Params, c: nat, t: real) {
    c < |s.last| && c < |s.first| && t - s.last[c] <= prm.window && t - s.first[c] <= prm.span
  }

  function Sim<V>(ops: Ops<V>, s: State<V>, p: Post<V>, c: nat): real {
    if c < |s.cent| then ops.dot(p.vec, s.cent[c]) else 0.0
  }

  function OpenOf<V>(s: State<V>, prm: Params, candidates: seq<nat>, t: real): seq<nat> {
    if candidates == [] then []
    else (if Open(s, prm, candidates[0], t) then [candidates[0]] else []) + OpenOf(s, prm, candidates[1..], t)
  }

  function Upto(n: nat): seq<nat> { if n == 0 then [] else Upto(n - 1) + [n - 1] }

  datatype Choice = NoCluster | Found(index: nat)

  /** The score to reach: the threshold until something is found, then the best so far. */
  function Bar<V>(ops: Ops<V>, prm: Params, s: State<V>, p: Post<V>, best: Choice): real {
    match best
    case NoCluster => prm.threshold
    case Found(c) => Sim(ops, s, p, c)
  }

  /** The first k candidates scanned in order, a later one replacing an equal earlier one. */
  function Pick<V>(ops: Ops<V>, prm: Params, s: State<V>, p: Post<V>, candidates: seq<nat>, k: nat): Choice
    requires k <= |candidates|
  {
    if k == 0 then NoCluster
    else
      var best := Pick(ops, prm, s, p, candidates, k - 1);
      var c := candidates[k - 1];
      if Sim(ops, s, p, c) >= Bar(ops, prm, s, p, best) then Found(c) else best
  }

  function Place<V>(ops: Ops<V>, s: State<V>, i: nat, p: Post<V>, best: Choice): State<V> {
    match best
    case NoCluster => State(s.clusters + [[i]], s.cent + [p.vec], s.last + [p.at], s.first + [p.at])
    case Found(b) =>
      if b < |s.clusters| && b < |s.cent| && b < |s.last| then
        State(
          s.clusters[b := s.clusters[b] + [i]],
          s.cent[b := ops.blend(s.cent[b], |s.clusters[b]|, p.vec)],
          s.last[b := p.at],
          s.first)
      else s
  }

  function Choose<V>(ops: Ops<V>, prm: Params, s: State<V>, p: Post<V>, candidates: seq<nat>): Choice {
    Pick(ops, prm, s, p, candidates, |candidates|)
  }

  /** Every post looks at all the clusters that are open at its time. */
  function Rescan<V>(ops: Ops<V>, prm: Params, posts: seq<Post<V>>, n: nat): State<V>
    requires n <= |posts|
  {
    if n == 0 then State([], [], [], [])
    else
      var s := Rescan(ops, prm, posts, n - 1);
      var p := posts[n - 1];
      Place(ops, s, n - 1, p, Choose(ops, prm, s, p, OpenOf(s, prm, Upto(|s.clusters|), p.at)))
  }

  function Remaining(active: seq<nat>, best: Choice, newest: nat): seq<nat> {
    if best.NoCluster? then active + [newest] else active
  }

  /** A cluster found closed leaves the active list for good. */
  function Dropping<V>(ops: Ops<V>, prm: Params, posts: seq<Post<V>>, n: nat): (State<V>, seq<nat>)
    requires n <= |posts|
  {
    if n == 0 then (State([], [], [], []), [])
    else
      var (s, active) := Dropping(ops, prm, posts, n - 1);
      var p := posts[n - 1];
      var kept := OpenOf(s, prm, active, p.at);
      var best := Choose(ops, prm, s, p, kept);
      (Place(ops, s, n - 1, p, best), Remaining(kept, best, |s.clusters|))
  }

  lemma PlaceConsistent<V>(ops: Ops<V>, s: State<V>, i: nat, p: Post<V>, best: Choice)
    requires Consistent(s)
    ensures Consistent(Place(ops, s, i, p, best))
  {
  }

  lemma {:induction false} RescanConsistent<V>(ops: Ops<V>, prm: Params, posts: seq<Post<V>>, n: nat)
    requires n <= |posts|
    ensures Consistent(Rescan(ops, prm, posts, n))
  {
    hide Place, Choose;
    if n > 0 {
      RescanConsistent(ops, prm, posts, n - 1);
      var s := Rescan(ops, prm, posts, n - 1);
      PlaceConsistent(ops, s, n - 1, posts[n - 1], Decision(ops, prm, s, posts[n - 1]));
    }
  }

  lemma {:induction false} DroppingConsistent<V>(ops: Ops<V>, prm: Params, posts: seq<Post<V>>, n: nat)
    requires n <= |posts|
    ensures Consistent(Dropping(ops, prm, posts, n).0)
  {
    hide Place, Choose;
    if n > 0 {
      DroppingConsistent(ops, prm, posts, n - 1);
      var (s, active) := Dropping(ops, prm, posts, n - 1);
      var kept := OpenOf(s, prm, active, posts[n - 1].at);
      PlaceConsistent(ops, s, n - 1, posts[n - 1], Choose(ops, prm, s, posts[n - 1], kept));
    }
  }

  lemma {:induction false} OpenOfAppend<V>(s: State<V>, prm: Params, a: seq<nat>, c: nat, t: real)
    ensures OpenOf(s, prm, a + [c], t) == OpenOf(s, prm, a, t) + (if Open(s, prm, c, t) then [c] else [])
  {
    if a == [] {
      assert a + [c] == [c];
    } else {
      OpenOfAppend(s, prm, a[1..], c, t);
      assert (a + [c])[1..] == a[1..] + [c];
    }
  }

  /** Dropping what is closed now loses nothing that any later state and time would still call open. */
  lemma {:induction false} DropThenFilter<V>(s: State<V>, s': State<V>, prm: Params, a: seq<nat>, t: real, t': real)
    requires forall c :: c in a && Open(s', prm, c, t') ==> Open(s, prm, c, t)
    ensures OpenOf(s', prm, OpenOf(s, prm, a, t), t') == OpenOf(s', prm, a, t')
  {
    if a != [] {
      DropThenFilter(s, s', prm, a[1..], t, t');
      var rest := OpenOf(s, prm, a[1..], t);
      assert ([a[0]] + rest)[1..] == rest && [] + rest == rest;
      assert a[0] in a;
    }
  }

  lemma {:induction false} OpenOfAreOpen<V>(s: State<V>, prm: Params, a: seq<nat>, t: real)
    ensures forall c :: c in OpenOf(s, prm, a, t) <==> c in a && Open(s, prm, c, t)
  {
    if a != [] {
      OpenOfAreOpen(s, prm, a[1..], t);
      assert a == [a[0]] + a[1..];
    }
  }

  lemma {:induction false} PickFromCandidates<V>(ops: Ops<V>, prm: Params, s: State<V>, p: Post<V>, candidates: seq<nat>, k: nat)
    requires k <= |candidates|
    ensures var best := Pick(ops, prm, s, p, candidates, k); best.Found? ==> best.index in candidates
  {
    if k > 0 { PickFromCandidates(ops, prm, s, p, candidates, k - 1); }
  }

  lemma {:induction false} UptoMembers(n: nat)
    ensures |Upto(n)| == n && forall k :: 0 <= k < n ==> Upto(n)[k] == k
  {
    if n > 0 { UptoMembers(n - 1); }
  }

  // ---------- what a placement decides ----------

  ghost predicate Increasing(a: seq<nat>) {
    forall j, k :: 0 <= j < k < |a| ==> a[j] < a[k]
  }

  lemma {:induction false} OpenOfIncreasing<V>(s: State<V>, prm: Params, n: nat, t: real)
    ensures Increasing(OpenOf(s, prm, Upto(n), t))
    ensures forall c :: c in OpenOf(s, prm, Upto(n), t) ==> c < n
  {
    if n > 0 {
      OpenOfIncreasing(s, prm, n - 1, t);
      OpenOfAppend(s, prm, Upto(n - 1), n - 1, t);
      var earlier := OpenOf(s, prm, Upto(n - 1), t);
      forall k | 0 <= k < |earlier| ensures earlier[k] < n - 1 { assert earlier[k] in earlier; }
    }
  }

  lemma {:induction false} PickIsLastMaximum<V>(ops: Ops<V>, prm: Params, s: State<V>, p: Post<V>, open: seq<nat>, k: nat)
    requires k <= |open|
    requires Increasing(open)
    ensures var best := Pick(ops, prm, s, p, open, k);
      match best
      case NoCluster => forall j :: 0 <= j < k ==> Sim(ops, s, p, open[j]) < prm.threshold
      case Found(b) =>
        && b in open
        && Sim(ops, s, p, b) >= prm.threshold
        && forall j :: 0 <= j < k ==>
             && Sim(ops, s, p, open[j]) <= Sim(ops, s, p, b)
             && b <= open[k - 1]
             && (b < open[j] ==> Sim(ops, s, p, open[j]) < Sim(ops, s, p, b))
  {
    if k > 0 { PickIsLastMaximum(ops, prm, s, p, open, k - 1); }
  }

  function Decision<V>(ops: Ops<V>, prm: Params, s: State<V>, p: Post<V>): Choice {
    Choose(ops, prm, s, p, OpenOf(s, prm, Upto(|s.clusters|), p.at))
  }

  /** A post seeds a cluster exactly when no open cluster reaches the threshold; otherwise it joins
      the most similar open cluster, the newest of equals. */
  lemma PlacementRule<V>(ops: Ops<V>, prm: Params, s: State<V>, p: Post<V>)
    requires Consistent(s)
    ensures Decision(ops, prm, s, p).NoCluster? <==>
      forall c: nat :: c < |s.clusters| && Open(s, prm, c, p.at) ==> Sim(ops, s, p, c) < prm.threshold
    ensures Decision(ops, prm, s, p).Found? ==>
      var b := Decision(ops, prm, s, p).index;
      && b < |s.clusters| && Open(s, prm, b, p.at) && Sim(ops, s, p, b) >= prm.threshold
      && forall c: nat :: c < |s.clusters| && Open(s, prm, c, p.at) ==>
           Sim(ops, s, p, c) <= Sim(ops, s, p, b) && (c > b ==> Sim(ops, s, p, c) < Sim(ops, s, p, b))
  {
    hide Sim, Open, Pick;
    var n := |s.clusters|;
    var open := OpenOf(s, prm, Upto(n), p.at);
    UptoMembers(n);
    OpenOfAreOpen(s, prm, Upto(n), p.at);
    OpenOfIncreasing(s, prm, n, p.at);
    PickIsLastMaximum(ops, prm, s, p, open, |open|);
    forall c: nat | c < n && Open(s, prm, c, p.at) ensures c in open {
      assert Upto(n)[c] == c;
    }
  }

  /** Cluster c can take p: within the window of its last post and the span of its first, and p reaches the
      threshold against its centroid. */
  ghost predicate Accepts<V>(ops: Ops<V>, prm: Params, s: State<V>, p: Post<V>, c: nat)
    requires Consistent(s)
  {
    && c < |s.clusters|
    && p.at - s.last[c] <= prm.window && p.at - s.first[c] <= prm.span
    && ops.dot(p.vec, s.cent[c]) >= prm.threshold
  }

  /** A post seeds a cluster exactly when none accepts it; otherwise it joins the most similar of those that
      do, the newest of equals. */
  lemma PlacementExactly<V>(ops: Ops<V>, prm: Params, s: State<V>, p: Post<V>, b: nat)
    requires Consistent(s)
    ensures Decision(ops, prm, s, p) == NoCluster <==> forall c: nat :: !Accepts(ops, prm, s, p, c)
    ensures Decision(ops, prm, s, p) == Found(b) <==>
      && Accepts(ops, prm, s, p, b)
      && forall c: nat :: Accepts(ops, prm, s, p, c) && c != b ==>
           && ops.dot(p.vec, s.cent[c]) <= ops.dot(p.vec, s.cent[b])
           && (c > b ==> ops.dot(p.vec, s.cent[c]) < ops.dot(p.vec, s.cent[b]))
  {
    PlacementRule(ops, prm, s, p);
    hide Decision;
    forall c: nat ensures Accepts(ops, prm, s, p, c) <==>
      c < |s.clusters| && Open(s, prm, c, p.at) && Sim(ops, s, p, c) >= prm.threshold
    {
    }
  }

  // ---------- structure of the result ----------

  /** The cluster that post i is put into. */
  function Owner<V>(ops: Ops<V>, prm: Params, posts: seq<Post<V>>, i: nat): nat
    requires i < |posts|
  {
    var s := Rescan(ops, prm, posts, i);
    match Decision(ops, prm, s, posts[i])
    case NoCluster => |s.clusters|
    case Found(b) => b
  }

  /** The clusters partition the posts: each post is in exactly one of them, its owner. */
  lemma {:induction false} ClustersPartitionPosts<V>(ops: Ops<V>, prm: Params, posts: seq<Post<V>>, n: nat, c: nat, i: nat)
    requires n <= |posts|
    ensures i < n ==> Owner(ops, prm, posts, i) < |Rescan(ops, prm, posts, n).clusters|
    ensures c < |Rescan(ops, prm, posts, n).clusters| ==>
      (i in Rescan(ops, prm, posts, n).clusters[c] <==> i < n && Owner(ops, prm, posts, i) == c)
  {
    hide Place, Open, Sim, Choose, OpenOf, Upto;
    if n > 0 {
      ClustersPartitionPosts(ops, prm, posts, n - 1, c, i);
      var s := Rescan(ops, prm, posts, n - 1);
      RescanConsistent(ops, prm, posts, n - 1);
      PlacementRule(ops, prm, s, posts[n - 1]);
      PlacementMembers(ops, s, n - 1, posts[n - 1], Decision(ops, prm, s, posts[n - 1]), c, i);
    }
  }

  /** Placing post n adds it to the chosen cluster and changes no other membership. */
  lemma PlacementMembers<V>(ops: Ops<V>, s: State<V>, n: nat, p: Post<V>, best: Choice, c: nat, i: nat)
    requires Consistent(s) && (best.Found? ==> best.index < |s.clusters|)
    ensures var after := Place(ops, s, n, p, best).clusters;
      var owner := if best.Found? then best.index else |s.clusters|;
      && |after| == (if best.Found? then |s.clusters| else |s.clusters| + 1)
      && (c < |after| ==> (i in after[c] <==> (c < |s.clusters| && i in s.clusters[c]) || (c == owner && i == n)))
  {
  }

  function Times<V>(posts: seq<Post<V>>): (ts: seq<real>)
    ensures |ts| == |posts| && forall i :: 0 <= i < |posts| ==> ts[i] == posts[i].at
  {
    seq(|posts|, i requires 0 <= i < |posts| => posts[i].at)
  }

  /** Members a cluster could have: increasing, each within the window of the one before it and within the
      span of the first. */
  ghost predicate Chain(ts: seq<real>, prm: Params, m: seq<nat>) {
    && m != []
    && (forall k :: 0 <= k < |m| ==> m[k] < |ts|)
    && (forall k :: 0 < k < |m| ==>
          m[k - 1] < m[k] && ts[m[k]] - ts[m[k - 1]] <= prm.window && ts[m[k]] - ts[m[0]] <= prm.span)
  }

  ghost predicate Shaped<V>(m: seq<nat>, first: real, last: real, prm: Params, posts: seq<Post<V>>, n: nat) {
    && n <= |posts| && Chain(Times(posts), prm, m)
    && (forall k :: 0 <= k < |m| ==> m[k] < n)
    && first == posts[m[0]].at && last == posts[m[|m| - 1]].at
  }

  ghost predicate WellShaped<V>(s: State<V>, prm: Params, posts: seq<Post<V>>, c: nat, n: nat) {
    && c < |s.clusters| && c < |s.first| && c < |s.last|
    && Shaped(s.clusters[c], s.first[c], s.last[c], prm, posts, n)
  }

  lemma ShapedJoin<V>(m: seq<nat>, first: real, last: real, prm: Params, posts: seq<Post<V>>, i: nat)
    requires i < |posts| && Shaped(m, first, last, prm, posts, i)
    requires posts[i].at - last <= prm.window && posts[i].at - first <= prm.span
    ensures Shaped(m + [i], first, posts[i].at, prm, posts, i + 1)
  {
    ChainJoin(Times(posts), prm, m, i);
    hide Chain;
  }

  lemma ChainJoin(ts: seq<real>, prm: Params, m: seq<nat>, i: nat)
    requires Chain(ts, prm, m) && m[|m| - 1] < i < |ts|
    requires ts[i] - ts[m[|m| - 1]] <= prm.window && ts[i] - ts[m[0]] <= prm.span
    ensures Chain(ts, prm, m + [i])
  {
  }

  lemma {:induction false} ClustersWellShaped<V>(ops: Ops<V>, prm: Params, posts: seq<Post<V>>, n: nat, c: nat)
    requires n <= |posts| && c < |Rescan(ops, prm, posts, n).clusters|
    ensures WellShaped(Rescan(ops, prm, posts, n), prm, posts, c, n)
  {
    hide WellShaped, Choose, OpenOf, Upto, Sim;
    if n > 0 {
      var i := n - 1;
      var s := Rescan(ops, prm, posts, i);
      if c < |s.clusters| { ClustersWellShaped(ops, prm, posts, i, c); }
      RescanConsistent(ops, prm, posts, i);
      PlacementRule(ops, prm, s, posts[i]);
      ShapeKept(ops, prm, s, posts, i, Decision(ops, prm, s, posts[i]), c);
    }
  }

  lemma ShapeKept<V>(ops: Ops<V>, prm: Params, s: State<V>, posts: seq<Post<V>>, i: nat, best: Choice, c: nat)
    requires i < |posts| && Consistent(s)
    requires c < |s.clusters| ==> WellShaped(s, prm, posts, c, i)
    requires best.Found? ==> best.index < |s.clusters| && Open(s, prm, best.index, posts[i].at)
    requires c < |Place(ops, s, i, posts[i], best).clusters|
    ensures WellShaped(Place(ops, s, i, posts[i], best), prm, posts, c, i + 1)
  {
    hide Shaped;
    if c < |s.clusters| {
      if best == Found(c) { ShapedJoin(s.clusters[c], s.first[c], s.last[c], prm, posts, i); }
      ShapedLater(s.clusters[c], s.first[c], s.last[c], prm, posts, i);
    } else {
      ShapedAlone(prm, posts, i);
    }
  }

  lemma ShapedLater<V>(m: seq<nat>, first: real, last: real, prm: Params, posts: seq<Post<V>>, i: nat)
    requires i < |posts| && Shaped(m, first, last, prm, posts, i)
    ensures Shaped(m, first, last, prm, posts, i + 1)
  {
  }

  lemma ShapedAlone<V>(prm: Params, posts: seq<Post<V>>, i: nat)
    requires i < |posts|
    ensures Shaped([i], posts[i].at, posts[i].at, prm, posts, i + 1)
  {
  }

  /** The running centroid of a member list: each member blended in with the number before it. */
  function CentroidOf<V>(ops: Ops<V>, posts: seq<Post<V>>, m: seq<nat>): V
    requires m != [] && forall k :: 0 <= k < |m| ==> m[k] < |posts|
  {
    var last := posts[m[|m| - 1]].vec;
    if |m| == 1 then last else ops.blend(CentroidOf(ops, posts, m[..|m| - 1]), |m| - 1, last)
  }

  ghost predicate CentroidOk<V>(ops: Ops<V>, posts: seq<Post<V>>, m: seq<nat>, v: V) {
    m != [] && (forall k :: 0 <= k < |m| ==> m[k] < |posts|) && v == CentroidOf(ops, posts, m)
  }

  lemma CentroidJoin<V>(ops: Ops<V>, posts: seq<Post<V>>, m: seq<nat>, v: V, i: nat)
    requires CentroidOk(ops, posts, m, v) && i < |posts|
    ensures CentroidOk(ops, posts, m + [i], ops.blend(v, |m|, posts[i].vec))
  {
    assert (m + [i])[..|m|] == m;
  }

  lemma CentroidAlone<V>(ops: Ops<V>, posts: seq<Post<V>>, i: nat)
    requires i < |posts|
    ensures CentroidOk(ops, posts, [i], posts[i].vec)
  {
  }

  lemma CentroidStep<V>(ops: Ops<V>, posts: seq<Post<V>>, s: State<V>, i: nat, best: Choice, c: nat)
    requires i < |posts| && Consistent(s) && c < |Place(ops, s, i, posts[i], best).clusters|
    requires c < |s.clusters| ==> CentroidOk(ops, posts, s.clusters[c], s.cent[c])
    requires best.Found? ==> best.index < |s.clusters|
    ensures var s' := Place(ops, s, i, posts[i], best);
      c < |s'.cent| && CentroidOk(ops, posts, s'.clusters[c], s'.cent[c])
  {
    hide CentroidOk;
    CentroidAlone(ops, posts, i);
    if best == Found(c) { CentroidJoin(ops, posts, s.clusters[c], s.cent[c], i); }
  }

  /** Every centroid is the running centroid of exactly its cluster's members, in their order. */
  lemma {:induction false} CentroidsFollowMembers<V>(ops: Ops<V>, prm: Params, posts: seq<Post<V>>, n: nat, c: nat)
    requires n <= |posts| && c < |Rescan(ops, prm, posts, n).clusters|
    ensures var s := Rescan(ops, prm, posts, n);
      c < |s.cent| && CentroidOk(ops, posts, s.clusters[c], s.cent[c])
  {
    hide CentroidOk, Place, Choose, OpenOf, Upto, Sim, Open;
    if n > 0 {
      var i := n - 1;
      var s := Rescan(ops, prm, posts, i);
      RescanConsistent(ops, prm, posts, i);
      if c < |s.clusters| { CentroidsFollowMembers(ops, prm, posts, i, c); }
      PlacementRule(ops, prm, s, posts[i]);
      CentroidStep(ops, posts, s, i, Decision(ops, prm, s, posts[i]), c);
    }
  }

  // ---------- the refinement ----------

  /** Whether a cluster with members m is open at time t. */
  ghost predicate OpenTo(ts: seq<real>, prm: Params, m: seq<nat>, t: real)
    requires Chain(ts, prm, m)
  {
    t - ts[m[|m| - 1]] <= prm.window && t - ts[m[0]] <= prm.span
  }

  /** A cluster with members m is closed when post j, after all of them, comes, and yet open at t. */
  ghost predicate Reopens(ts: seq<real>, prm: Params, m: seq<nat>, j: nat, t: real) {
    && Chain(ts, prm, m) && m[|m| - 1] < j < |ts|
    && !OpenTo(ts, prm, m, ts[j]) && OpenTo(ts, prm, m, t)
  }

  /** No possible cluster that one of the first n posts finds closed is open at t. */
  ghost predicate StaysClosed(ts: seq<real>, prm: Params, n: nat, t: real) {
    forall m: seq<nat>, j: nat :: j < n ==> !Reopens(ts, prm, m, j, t)
  }

  /** None of the first n posts finds a possible cluster open that an earlier one found closed. */
  ghost predicate NeverReopens(ts: seq<real>, prm: Params, n: nat) {
    forall k: nat :: k < n && k < |ts| ==> StaysClosed(ts, prm, k, ts[k])
  }

  ghost predicate SortedTimes<V>(posts: seq<Post<V>>) {
    forall i, j :: 0 <= i < j < |posts| ==> posts[i].at <= posts[j].at
  }

  lemma SortedStaysClosed<V>(posts: seq<Post<V>>, prm: Params, n: nat, t: real)
    requires SortedTimes(posts) && n <= |posts| && (n > 0 ==> posts[n - 1].at <= t)
    ensures StaysClosed(Times(posts), prm, n, t)
  {
    var ts := Times(posts);
    forall m: seq<nat>, j: nat | j < n ensures !Reopens(ts, prm, m, j, t) {
      assert ts[j] <= ts[n - 1];
    }
  }

  /** After placing a post, a cluster open later was open before it, or is the new one, unless it reopened. */
  lemma PlaceKeepsOpen<V>(ops: Ops<V>, prm: Params, s: State<V>, i: nat, p: Post<V>, best: Choice, c: nat, t': real)
    requires Consistent(s) && c < |s.clusters|
    requires Open(s, prm, c, t') ==> Open(s, prm, c, p.at)
    requires best.Found? ==> Open(s, prm, best.index, p.at)
    ensures Open(Place(ops, s, i, p, best), prm, c, t') ==> Open(s, prm, c, p.at)
  {
  }

  lemma StepInvariant<V>(ops: Ops<V>, prm: Params, s: State<V>, active: seq<nat>, i: nat, p: Post<V>, t': real)
    requires Consistent(s)
    requires forall c: nat :: c < |s.clusters| && Open(s, prm, c, t') ==> Open(s, prm, c, p.at)
    requires OpenOf(s, prm, active, p.at) == OpenOf(s, prm, Upto(|s.clusters|), p.at)
    ensures var kept := OpenOf(s, prm, active, p.at);
      var best := Choose(ops, prm, s, p, kept);
      var s' := Place(ops, s, i, p, best);
      OpenOf(s', prm, Remaining(kept, best, |s.clusters|), t') == OpenOf(s', prm, Upto(|s'.clusters|), t')
  {
    hide Open, Pick;
    var all := Upto(|s.clusters|);
    var kept := OpenOf(s, prm, all, p.at);
    var best := Choose(ops, prm, s, p, kept);
    var s' := Place(ops, s, i, p, best);
    UptoMembers(|s.clusters|);
    PickFromCandidates(ops, prm, s, p, kept, |kept|);
    OpenOfAreOpen(s, prm, all, p.at);
    forall c | c in all && Open(s', prm, c, t') ensures Open(s, prm, c, p.at) {
      PlaceKeepsOpen(ops, prm, s, i, p, best, c, t');
    }
    DropThenFilter(s, s', prm, all, p.at, t');
    if best.NoCluster? {
      OpenOfAppend(s', prm, kept, |s.clusters|, t');
      OpenOfAppend(s', prm, all, |s.clusters|, t');
    }
  }

  /** Where nothing reopens, the active list and the full list agree on which clusters are open. */
  lemma {:induction false} DroppingFollows<V>(ops: Ops<V>, prm: Params, posts: seq<Post<V>>, n: nat, t': real)
    requires n <= |posts| && NeverReopens(Times(posts), prm, n)
    requires StaysClosed(Times(posts), prm, n, t')
    ensures var (s, active) := Dropping(ops, prm, posts, n);
      && s == Rescan(ops, prm, posts, n)
      && OpenOf(s, prm, active, t') == OpenOf(s, prm, Upto(|s.clusters|), t')
  {
    hide OpenOf, Open, Place, Choose, StaysClosed, Remaining, Consistent;
    if n > 0 {
      var (s, active) := Dropping(ops, prm, posts, n - 1);
      var p := posts[n - 1];
      DroppingFollows(ops, prm, posts, n - 1, p.at);
      DroppingConsistent(ops, prm, posts, n - 1);
      forall c: nat | c < |s.clusters| && Open(s, prm, c, t') ensures Open(s, prm, c, p.at) {
        ClosedStaysClosed(ops, prm, posts, n - 1, c, t');
      }
      StepInvariant(ops, prm, s, active, n - 1, p, t');
    }
  }

  lemma ClosedStaysClosed<V>(ops: Ops<V>, prm: Params, posts: seq<Post<V>>, i: nat, c: nat, t': real)
    requires i < |posts| && c < |Rescan(ops, prm, posts, i).clusters|
    requires StaysClosed(Times(posts), prm, i + 1, t')
    ensures var s := Rescan(ops, prm, posts, i); Open(s, prm, c, t') ==> Open(s, prm, c, posts[i].at)
  {
    ClustersWellShaped(ops, prm, posts, i, c);
    assert !Reopens(Times(posts), prm, Rescan(ops, prm, posts, i).clusters[c], i, t');
  }

  /** Where nothing reopens among the first n posts, both clusterers are in the same state after them. */
  lemma DroppingAgrees<V>(ops: Ops<V>, prm: Params, posts: seq<Post<V>>, n: nat)
    requires n <= |posts| && NeverReopens(Times(posts), prm, n)
    ensures Dropping(ops, prm, posts, n).0 == Rescan(ops, prm, posts, n)
  {
    hide OpenOf, Open, Place, Choose, StaysClosed;
    if n > 0 {
      DroppingFollows(ops, prm, posts, n - 1, posts[n - 1].at);
    }
  }

  /** On sorted times the two lists agree after any prefix, now and at every later time. */
  lemma DroppingInvariant<V>(ops: Ops<V>, prm: Params, posts: seq<Post<V>>, n: nat, t': real)
    requires n <= |posts| && SortedTimes(posts)
    requires n > 0 ==> posts[n - 1].at <= t'
    ensures var (s, active) := Dropping(ops, prm, posts, n);
      && s == Rescan(ops, prm, posts, n)
      && OpenOf(s, prm, active, t') == OpenOf(s, prm, Upto(|s.clusters|), t')
  {
    hide Dropping, Rescan, OpenOf;
    var ts := Times(posts);
    forall k: nat | k < n && k < |ts| ensures StaysClosed(ts, prm, k, ts[k]) {
      SortedStaysClosed(posts, prm, k, ts[k]);
    }
    SortedStaysClosed(posts, prm, n, t');
    DroppingFollows(ops, prm, posts, n, t');
  }

  /** On time-sorted posts both clusterers build the same clusters, members and centroids. */
  lemma SameClusters<V>(ops: Ops<V>, prm: Params, posts: seq<Post<V>>)
    requires SortedTimes(posts)
    ensures Dropping(ops, prm, posts, |posts|).0 == Rescan(ops, prm, posts, |posts|)
  {
    var t := if posts == [] then 0.0 else posts[|posts| - 1].at;
    DroppingInvariant(ops, prm, posts, |posts|, t);
  }

  // ---------- the two programs ----------

  /** The scan both programs run over a candidate list. */
  method ScanCandidates<V>(ops: Ops<V>, prm: Params, s: State<V>, p: Post<V>, candidates: seq<nat>) returns (best: Choice)
    ensures best == Choose(ops, prm, s, p, candidates)
  {
    best := NoCluster;
    var bestSim := prm.threshold;
    for k := 0 to |candidates|
      invariant best == Pick(ops, prm, s, p, candidates, k)
      invariant bestSim == Bar(ops, prm, s, p, best)
    {
      var sim := Sim(ops, s, p, candidates[k]);
      if sim >= bestSim {
        bestSim, best := sim, Found(candidates[k]);
      }
    }
  }

  /** The offline harness: closed clusters leave `active` and are never looked at again. */
  method Cluster<V>(ops: Ops<V>, prm: Params, posts: seq<Post<V>>)
    returns (clusters: seq<seq<nat>>, cent: seq<V>)
    ensures var s := Dropping(ops, prm, posts, |posts|).0; clusters == s.clusters && cent == s.cent
    ensures SortedTimes(posts) ==>
      var s := Rescan(ops, prm, posts, |posts|); clusters == s.clusters && cent == s.cent
  {
    hide Pick, Open, OpenOf;
    var lastTs: seq<real>, firstTs: seq<real>, active: seq<nat> := [], [], [];
    clusters, cent := [], [];
    for i := 0 to |posts|
      invariant (State(clusters, cent, lastTs, firstTs), active) == Dropping(ops, prm, posts, i)
    {
      var p := posts[i];
      var s := State(clusters, cent, lastTs, firstTs);
      DroppingConsistent(ops, prm, posts, i);
      active := OpenOf(s, prm, active, p.at);
      var best := ScanCandidates(ops, prm, s, p, active);
      match best {
        case NoCluster =>
          clusters, cent := clusters + [[i]], cent + [p.vec];
          lastTs, firstTs := lastTs + [p.at], firstTs + [p.at];
          active := active + [|clusters| - 1];
        case Found(b) =>
          DroppingInRange(ops, prm, posts, i);
          cent := cent[b := ops.blend(cent[b], |clusters[b]|, p.vec)];
          clusters := clusters[b := clusters[b] + [i]];
          lastTs := lastTs[b := p.at];
      }
    }
    if SortedTimes(posts) { SameClusters(ops, prm, posts); }
  }

  /** The quality report: every post rescans all clusters, with fixed threshold, window and span. */
  method Recluster<V>(ops: Ops<V>, posts: seq<Post<V>>) returns (clusters: seq<seq<nat>>, cent: seq<V>)
    ensures var s := Rescan(ops, Params(0.75, 48.0 * 3600.0, 72.0 * 3600.0), posts, |posts|);
      clusters == s.clusters && cent == s.cent
  {
    hide Pick, Open, OpenOf;
    var lastTs: seq<real>, firstTs: seq<real> := [], [];
    clusters, cent := [], [];
    for i := 0 to |posts|
      invariant State(clusters, cent, lastTs, firstTs) == Rescan(ops, RECLUSTER, posts, i)
    {
      var p := posts[i];
      var s := State(clusters, cent, lastTs, firstTs);
      RescanConsistent(ops, RECLUSTER, posts, i);
      var active := OpenOf(s, RECLUSTER, Upto(|clusters|), p.at);
      var best := ScanCandidates(ops, RECLUSTER, s, p, active);
      match best {
        case NoCluster =>
          clusters, cent := clusters + [[i]], cent + [p.vec];
          lastTs, firstTs := lastTs + [p.at], firstTs + [p.at];
        case Found(b) =>
          PlacementRule(ops, RECLUSTER, s, p);
          cent := cent[b := ops.blend(cent[b], |clusters[b]|, p.vec)];
          clusters := clusters[b := clusters[b] + [i]];
          lastTs := lastTs[b := p.at];
      }
    }
  }

  /** A candidate the harness finds is a cluster it has. */
  lemma DroppingInRange<V>(ops: Ops<V>, prm: Params, posts: seq<Post<V>>, i: nat)
    requires i < |posts|
    ensures var (s, active) := Dropping(ops, prm, posts, i);
      var best := Choose(ops, prm, s, posts[i], OpenOf(s, prm, active, posts[i].at));
      best.Found? ==> best.index < |s.clusters| == |s.cent| == |s.last|
  {
    var (s, active) := Dropping(ops, prm, posts, i);
    var kept := OpenOf(s, prm, active, posts[i].at);
    DroppingConsistent(ops, prm, posts, i);
    OpenOfAreOpen(s, prm, active, posts[i].at);
    PickFromCandidates(ops, prm, s, posts[i], kept, |kept|);
  }
}
