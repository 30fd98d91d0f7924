/** The collect pass and its last-tick marker: which window each pass reads. */
module CollectPass {
  import opened Wrappers

  /** What the marker key can hold: unparsable text, a stamp without a zone, or an instant. */
  datatype Raw = Corrupt | Naive | Stamp(at: real)

  datatype Marker = Marker(raw: Raw, expires: real)

  const RETENTION := 172800.0

  function ReadMarker(m: Option<Marker>, now: real): Option<Raw> {
    if m.Some? && now < m.value.expires then Some(m.value.raw) else None
  }

  /** The lower bound of the window read by a pass that starts at now. */
  function ResolveSince(m: Option<Marker>, now: real, lookback: real): real {
    match ReadMarker(m, now)
    case Some(Stamp(at)) =>
      var floored := if at > now - RETENTION then at else now - RETENTION;
      if floored < now then floored else now
    case _ => now - lookback
  }

  /** How one source kind fares: no collector, an unconfigured one, a read, or an escaping error. */
  datatype KindResult = Unregistered | Unconfigured | Ran | Raised

  /** A pass from now to finish over the kinds of its watched sources, in order. */
  datatype Pass = Pass(now: real, finish: real, kinds: seq<KindResult>)

  predicate Completed(p: Pass) { Ran in p.kinds && Raised !in p.kinds }

  function MarkerAfter(m: Option<Marker>, p: Pass): Option<Marker> {
    if Completed(p) then Some(Marker(Stamp(p.now), p.finish + RETENTION)) else m
  }

  class Ingest {
    var marker: Option<Marker>
    const lookback: real

    constructor (marker: Option<Marker>, lookback: real)
      ensures this.marker == marker && this.lookback == lookback
    {
      this.marker, this.lookback := marker, lookback;
    }

    /** collect_watched_sources; `since` is the bound every read of the pass was given. */
    method CollectWatchedSources(p: Pass) returns (since: real, aborted: bool)
      modifies this`marker
      ensures since == ResolveSince(old(marker), p.now, lookback)
      ensures aborted <==> Raised in p.kinds
      ensures marker == MarkerAfter(old(marker), p)
      // In plain terms: the last stamp, kept within the last 48 hours, or the look-back without one; and the
      // marker moves to this start exactly when something was read and nothing escaped.
      ensures var m := old(marker);
        if m.Some? && p.now < m.value.expires && m.value.raw.Stamp? then
          var at := m.value.raw.at;
          && (p.now - 48.0 * 3600.0 <= at <= p.now ==> since == at)
          && (at < p.now - 48.0 * 3600.0 ==> since == p.now - 48.0 * 3600.0)
          && (at > p.now ==> since == p.now)
        else since == p.now - lookback
      ensures marker ==
        if (exists i :: 0 <= i < |p.kinds| && p.kinds[i] == Ran) && (forall i :: 0 <= i < |p.kinds| ==> p.kinds[i] != Raised)
        then Some(Marker(Stamp(p.now), p.finish + 48.0 * 3600.0)) else old(marker)
    {
      since := ResolveSince(marker, p.now, lookback);
      if p.kinds == [] { return since, false; }
      var attemptedAny := false;
      for i := 0 to |p.kinds|
        invariant Raised !in p.kinds[..i]
        invariant attemptedAny <==> Ran in p.kinds[..i]
        invariant marker == old(marker)
      {
        assert p.kinds[..i + 1] == p.kinds[..i] + [p.kinds[i]];
        match p.kinds[i] {
          case Unregistered =>
          case Unconfigured =>
          case Ran => attemptedAny := true;
          case Raised =>
            assert p.kinds[i] in p.kinds;
            return since, true;
        }
      }
      assert p.kinds[..|p.kinds|] == p.kinds;
      if attemptedAny { marker := Some(Marker(Stamp(p.now), p.finish + RETENTION)); }
      return since, false;
    }
  }

  // ---------- runs of passes ----------

  /** The lock serialises passes: each starts after the one before it ended. */
  ghost predicate Serialised(passes: seq<Pass>) {
    && (forall i :: 0 <= i < |passes| ==> passes[i].now <= passes[i].finish)
    && (forall i, j :: 0 <= i < j < |passes| ==> passes[i].finish <= passes[j].now)
  }

  function MarkerBefore(m: Option<Marker>, passes: seq<Pass>, n: nat): Option<Marker>
    requires n <= |passes|
  {
    if n == 0 then m else MarkerAfter(MarkerBefore(m, passes, n - 1), passes[n - 1])
  }

  function Since(m: Option<Marker>, passes: seq<Pass>, n: nat, lookback: real): real
    requires n < |passes|
  {
    ResolveSince(MarkerBefore(m, passes, n), passes[n].now, lookback)
  }

  /** Passes i and j completed, and none between them did. */
  ghost predicate Consecutive(passes: seq<Pass>, i: nat, j: nat) {
    i < j < |passes| && Completed(passes[i]) && Completed(passes[j])
    && forall k :: i < k < j ==> !Completed(passes[k])
  }

  /** Aborted and unconfigured passes leave the marker where the last completed one put it. */
  lemma {:induction false} MarkerHeld(m: Option<Marker>, passes: seq<Pass>, i: nat, n: nat)
    requires i < n <= |passes| && Completed(passes[i])
    requires forall k :: i < k < n ==> !Completed(passes[k])
    ensures MarkerBefore(m, passes, n) == Some(Marker(Stamp(passes[i].now), passes[i].finish + RETENTION))
  {
    if i + 1 < n { MarkerHeld(m, passes, i, n - 1); }
  }

  /** A completed pass reads from exactly the previous completed pass's start if and only if the marker
      is still there and the two starts are at most the retention apart; with the marker expired it would
      take a look-back that happens to reach that start. */
  lemma WindowsJoin(m: Option<Marker>, passes: seq<Pass>, i: nat, j: nat, lookback: real)
    requires Serialised(passes) && Consecutive(passes, i, j)
    ensures var apart := passes[j].now - passes[i].now;
      Since(m, passes, j, lookback) == passes[i].now <==>
      if passes[j].now < passes[i].finish + RETENTION then apart <= RETENTION else apart == lookback
  {
    MarkerHeld(m, passes, i, j);
    assert passes[i].now <= passes[i].finish <= passes[j].now;
  }

  /** Completed passes under the retention apart cover every instant from the first start on. */
  lemma {:induction false} NoInstantMissed(m: Option<Marker>, passes: seq<Pass>, i: nat, j: nat, lookback: real, t: real)
    requires Serialised(passes) && i < j < |passes| && Completed(passes[i]) && Completed(passes[j])
    requires forall a: nat, b: nat :: Consecutive(passes, a, b) ==> passes[b].now - passes[a].now < RETENTION
    requires passes[i].now <= t < passes[j].now
    ensures exists k :: i < k <= j && Completed(passes[k]) && Since(m, passes, k, lookback) <= t < passes[k].now
  {
    var k := PreviousCompleted(passes, i, j);
    assert Consecutive(passes, k, j);
    assert passes[k].now <= passes[k].finish;
    WindowsJoin(m, passes, k, j, lookback);
    if t < passes[k].now { NoInstantMissed(m, passes, i, k, lookback, t); }
  }

  lemma {:induction false} PreviousCompleted(passes: seq<Pass>, i: nat, j: nat) returns (k: nat)
    requires i < j < |passes| && Completed(passes[i]) && Completed(passes[j])
    ensures i <= k < j && Consecutive(passes, k, j)
  {
    k := j - 1;
    while !Completed(passes[k])
      invariant i <= k < j
      invariant forall x :: k < x < j ==> !Completed(passes[x])
      decreases k
    {
      k := k - 1;
    }
  }

  /** Once a readable stamp exists the window never reaches past the retention nor into the future. */
  lemma SinceInRetention(m: Option<Marker>, now: real, lookback: real)
    ensures ReadMarker(m, now).Some? && ReadMarker(m, now).value.Stamp? ==>
      now - RETENTION <= ResolveSince(m, now, lookback) <= now
    ensures !(ReadMarker(m, now).Some? && ReadMarker(m, now).value.Stamp?) ==>
      ResolveSince(m, now, lookback) == now - lookback
  {
  }
}
