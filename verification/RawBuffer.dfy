/** The raw-post buffer: one capped Redis list with a TTL per source, written and drained atomically. */
module RawBuffer {
  import opened Wrappers

  const MAX_LEN: nat := 50_000
  const TTL := 172800.0

  /** One source's key: the serialized posts, and when the key expires. */
  datatype Entry<P> = Entry(posts: seq<P>, expires: real)

  function Live<P>(e: Option<Entry<P>>, now: real): seq<P> {
    if e.Some? && now < e.value.expires then e.value.posts else []
  }

  function Newest<P>(posts: seq<P>): seq<P> {
    if |posts| <= MAX_LEN then posts else posts[|posts| - MAX_LEN..]
  }

  /** RPUSH, LTRIM -MAX -1 and EXPIRE in one MULTI/EXEC. */
  function Written<P>(e: Option<Entry<P>>, p: P, now: real): Option<Entry<P>> {
    Some(Entry(Newest(Live(e, now) + [p]), now + TTL))
  }

  // ---------- the class over all sources ----------

  class Buffer<K(==, !new), P(!new)> {
    var lists: map<K, Entry<P>>

    function At(key: K): Option<Entry<P>>
      reads this
    {
      if key in lists then Some(lists[key]) else None
    }

    constructor ()
      ensures forall k :: At(k) == None
    {
      lists := map[];
    }

    method WritePost(key: K, post: P, now: real)
      modifies this
      ensures At(key) == Written(old(At(key)), post, now)
      ensures forall k :: k != key ==> At(k) == old(At(k))
    {
      var list := if key in lists && now < lists[key].expires then lists[key].posts else [];
      list := list + [post];
      if |list| > MAX_LEN { list := list[|list| - MAX_LEN..]; }
      lists := lists[key := Entry(list, now + TTL)];
    }

    method DrainSource(key: K, now: real) returns (posts: seq<P>)
      modifies this
      ensures posts == Live(old(At(key)), now)
      ensures At(key) == None
      ensures forall k :: k != key ==> At(k) == old(At(k))
    {
      posts := if key in lists && now < lists[key].expires then lists[key].posts else [];
      lists := lists - {key};
    }
  }

  // ---------- one source's history ----------

  /** How a post left the buffer. */
  datatype Fate = Drained | Dropped | Expired

  /** The key next to the log of everything ever written, when, and everything ever drained. `fates` says
      how each post that has left did so; the posts of the log past |fates| have not left. */
  datatype History<P> = History(
    now: real, entry: Option<Entry<P>>, log: seq<P>, times: seq<real>, drained: seq<P>, fates: seq<Fate>,
    lastWrite: real)

  /** The atomic operations, the passing of time, and Redis reclaiming an expired key. */
  datatype Op<P> = Write(post: P) | Drain | Wait(to: real) | Reclaim

  function Times(f: Fate, n: nat): seq<Fate> { seq(n, _ => f) }

  function Left<P>(h: History<P>): nat { if |h.fates| <= |h.log| then |h.log| - |h.fates| else 0 }

  /** The fates of posts the key no longer serves because it has expired. */
  function Lapsed<P>(h: History<P>): seq<Fate> {
    if h.entry.Some? && h.entry.value.expires <= h.now then h.fates + Times(Expired, Left(h)) else h.fates
  }

  function Next<P>(h: History<P>, op: Op<P>): History<P> {
    match op
    case Write(p) =>
      var overflow := |Live(h.entry, h.now)| + 1 > MAX_LEN;
      h.(entry := Written(h.entry, p, h.now), log := h.log + [p], times := h.times + [h.now], lastWrite := h.now,
         fates := Lapsed(h) + (if overflow then [Dropped] else []))
    case Drain =>
      var taken := Live(h.entry, h.now);
      h.(entry := None, drained := h.drained + taken, fates := Lapsed(h) + Times(Drained, |taken|))
    case Wait(to) => if h.now <= to then h.(now := to) else h
    case Reclaim =>
      if h.entry.Some? && h.entry.value.expires <= h.now then h.(entry := None, fates := Lapsed(h)) else h
  }

  function Run<P>(ops: seq<Op<P>>): History<P> {
    if ops == [] then History(0.0, None, [], [], [], [], 0.0)
    else Next(Run(ops[..|ops| - 1]), ops[|ops| - 1])
  }

  /** The posts of the log whose fate is to have been drained, in log order. */
  function DrainedOf<P>(log: seq<P>, fates: seq<Fate>): seq<P>
    requires |fates| <= |log|
  {
    if fates == [] then []
    else
      var k := |fates| - 1;
      DrainedOf(log, fates[..k]) + (if fates[k] == Drained then [log[k]] else [])
  }

  /** A post is dropped only once MAX_LEN newer ones have been written. */
  ghost predicate DroppedLate(fates: seq<Fate>, written: nat) {
    forall i :: 0 <= i < |fates| && fates[i] == Dropped ==> i + MAX_LEN < written
  }

  /** The log splits in order into posts that left, each in one way, and posts still buffered. */
  ghost predicate Split<P>(h: History<P>) {
    && |h.fates| <= |h.log|
    && (match h.entry
        case None => |h.fates| == |h.log|
        case Some(e) =>
          && e.posts == h.log[|h.fates|..]
          && |e.posts| <= MAX_LEN
          && e.expires == h.lastWrite + TTL)
    && h.drained == DrainedOf(h.log, h.fates)
    && h.lastWrite <= h.now
    && DroppedLate(h.fates, |h.log|)
  }

  lemma {:induction false} DrainedOfLonger<P>(log: seq<P>, more: seq<P>, fates: seq<Fate>)
    requires |fates| <= |log|
    ensures DrainedOf(log + more, fates) == DrainedOf(log, fates)
  {
    if fates != [] { DrainedOfLonger(log, more, fates[..|fates| - 1]); }
  }

  lemma {:induction false} DrainedOfTimes<P>(log: seq<P>, fates: seq<Fate>, f: Fate, n: nat)
    requires |fates| + n <= |log|
    ensures DrainedOf(log, fates + Times(f, n)) ==
      DrainedOf(log, fates) + (if f == Drained then log[|fates|..|fates| + n] else [])
  {
    hide DrainedOf, Times;
    TimesNext(f, n);
    if n == 0 {
      assert fates + [] == fates;
    } else {
      DrainedOfTimes(log, fates, f, n - 1);
      var front := fates + Times(f, n - 1);
      assert fates + Times(f, n) == front + [f];
      DrainedOfNext(log, front, f);
      SliceNext(log, |fates|, n);
    }
  }

  lemma TimesNext(f: Fate, n: nat)
    ensures |Times(f, n)| == n && if n == 0 then Times(f, n) == [] else
      |Times(f, n - 1)| == n - 1 && Times(f, n) == Times(f, n - 1) + [f]
  {
  }

  lemma SliceNext<P>(log: seq<P>, k: nat, n: nat)
    requires 0 < n && k + n <= |log|
    ensures log[k..k + n] == log[k..k + n - 1] + [log[k + n - 1]]
  {
  }

  lemma DrainedOfNext<P>(log: seq<P>, fates: seq<Fate>, f: Fate)
    requires |fates| < |log|
    ensures DrainedOf(log, fates + [f]) == DrainedOf(log, fates) + (if f == Drained then [log[|fates|]] else [])
  {
    assert (fates + [f])[..|fates|] == fates;
  }

  /** Expiry only moves buffered posts to the expired ones. */
  lemma LapsedSplit<P>(h: History<P>)
    requires Split(h)
    ensures |Lapsed(h)| <= |h.log|
    ensures h.drained == DrainedOf(h.log, Lapsed(h))
    ensures Live(h.entry, h.now) == h.log[|Lapsed(h)|..] && |Live(h.entry, h.now)| <= MAX_LEN
    ensures DroppedLate(Lapsed(h), |h.log|)
  {
    DrainedOfTimes(h.log, h.fates, Expired, Left(h));
  }

  /** Appending p to the k posts that left drops exactly the oldest buffered one, if any. */
  lemma AppendCapped<P>(log: seq<P>, fates: seq<Fate>, p: P)
    requires |fates| <= |log| <= |fates| + MAX_LEN && DroppedLate(fates, |log|)
    ensures var log', overflow := log + [p], |log| - |fates| + 1 > MAX_LEN;
      var fates' := fates + (if overflow then [Dropped] else []);
      && |fates'| <= |log'| <= |fates'| + MAX_LEN
      && Newest(log[|fates|..] + [p]) == log'[|fates'|..]
      && DrainedOf(log', fates') == DrainedOf(log, fates)
      && DroppedLate(fates', |log'|)
  {
    var log' := log + [p];
    DrainedOfLonger(log, [p], fates);
    assert log[|fates|..] + [p] == log'[|fates|..];
    if |log| - |fates| + 1 > MAX_LEN {
      assert (fates + [Dropped])[..|fates|] == fates;
      assert log'[|fates|..][1..] == log'[|fates| + 1..];
    } else {
      assert fates + [] == fates;
    }
  }

  // ---------- expiry needs a full TTL without a write ----------

  /** When the write after position j came, or now if there was none. */
  function NextWrite(times: seq<real>, now: real, j: nat): real {
    if j + 1 < |times| then times[j + 1] else now
  }

  /** Post i and all after it up to some j expired together: a full TTL without a write followed j. */
  ghost predicate ExpiredIdle(fates: seq<Fate>, times: seq<real>, now: real, i: nat) {
    exists j: nat :: i <= j < |fates| && j < |times| && times[j] + TTL <= NextWrite(times, now, j)
      && forall k :: i <= k <= j ==> fates[k] == Expired
  }

  /** Every expiry recorded in the fates is one that the TTL explains. */
  ghost predicate OnlyIdleExpire(fates: seq<Fate>, times: seq<real>, now: real) {
    forall i: nat :: i < |fates| && fates[i] == Expired ==> ExpiredIdle(fates, times, now, i)
  }

  /** Write times in order, none of them in the future. */
  ghost predicate Clocked(times: seq<real>, now: real, lastWrite: real) {
    && (forall i, j :: 0 <= i <= j < |times| ==> times[i] <= times[j] <= now)
    && (times != [] ==> times[|times| - 1] == lastWrite)
  }

  ghost predicate Timed<P>(h: History<P>) {
    && |h.times| == |h.log| && Clocked(h.times, h.now, h.lastWrite)
    && OnlyIdleExpire(h.fates, h.times, h.now)
  }

  lemma ClockedOnward(times: seq<real>, now: real, lastWrite: real, now': real)
    requires Clocked(times, now, lastWrite) && now <= now'
    ensures Clocked(times, now', lastWrite) && Clocked(times + [now], now, now)
  {
  }

  /** Later fates, writes and instants keep the explanation of earlier expiries. */
  lemma IdleKept(fates: seq<Fate>, times: seq<real>, now: real, more: seq<Fate>, later: seq<real>, now': real)
    requires OnlyIdleExpire(fates, times, now)
    requires now <= now' && (later == [] || later[0] >= now)
    requires forall k :: 0 <= k < |more| ==> more[k] != Expired
    ensures OnlyIdleExpire(fates + more, times + later, now')
  {
    var fates', times' := fates + more, times + later;
    forall i: nat | i < |fates'| && fates'[i] == Expired ensures ExpiredIdle(fates', times', now', i) {
      assert fates[i] == Expired;
      var j: nat :| i <= j < |fates| && j < |times| && times[j] + TTL <= NextWrite(times, now, j)
        && forall k :: i <= k <= j ==> fates[k] == Expired;
      assert NextWrite(times, now, j) <= NextWrite(times', now', j);
    }
  }

  /** What lapses now lapses together, a full TTL after the last write. */
  lemma LapseIdle<P>(h: History<P>)
    requires Split(h) && Timed(h)
    ensures OnlyIdleExpire(Lapsed(h), h.times, h.now)
  {
    var lapsed, n := Lapsed(h), |h.log|;
    forall i: nat | i < |lapsed| && lapsed[i] == Expired ensures ExpiredIdle(lapsed, h.times, h.now, i) {
      if i < |h.fates| {
        assert ExpiredIdle(h.fates, h.times, h.now, i);
      } else {
        assert i <= n - 1 < |lapsed| && h.times[n - 1] + TTL <= NextWrite(h.times, h.now, n - 1);
      }
    }
  }

  lemma {:induction false} NextTimed<P>(h: History<P>, op: Op<P>)
    requires Split(h) && Timed(h)
    ensures Timed(Next(h, op))
  {
    hide Split, Clocked, OnlyIdleExpire, Lapsed, Live;
    LapseIdle(h);
    ClockedOnward(h.times, h.now, h.lastWrite, Next(h, op).now);
    match op
    case Write(p) =>
      var overflow := |Live(h.entry, h.now)| + 1 > MAX_LEN;
      IdleKept(Lapsed(h), h.times, h.now, if overflow then [Dropped] else [], [h.now], h.now);
    case Drain =>
      IdleKept(Lapsed(h), h.times, h.now, Times(Drained, |Live(h.entry, h.now)|), [], h.now);
      assert h.times + [] == h.times;
    case Wait(to) =>
      if h.now <= to { IdleKept(h.fates, h.times, h.now, [], [], to); }
      assert h.times + [] == h.times && h.fates + [] == h.fates;
    case Reclaim =>
  }

  lemma WriteSplits<P>(h: History<P>, p: P)
    requires Split(h)
    ensures Split(Next(h, Write(p)))
  {
    LapsedSplit(h);
    hide Lapsed, DrainedOf, Live, Newest, DroppedLate;
    AppendCapped(h.log, Lapsed(h), p);
  }

  lemma DrainSplits<P>(h: History<P>)
    requires Split(h)
    ensures Split(Next(h, Drain))
  {
    LapsedSplit(h);
    var lapsed := Lapsed(h);
    var taken := Live(h.entry, h.now);
    DrainedOfTimes(h.log, lapsed, Drained, |taken|);
  }

  lemma NextSplits<P>(h: History<P>, op: Op<P>)
    requires Split(h)
    ensures Split(Next(h, op))
  {
    match op
    case Write(p) => WriteSplits(h, p);
    case Drain => DrainSplits(h);
    case Wait(_) =>
    case Reclaim => LapsedSplit(h);
  }

  /** In every run the log is at all times an in-order split, and only a full TTL without a write has
      made posts expire. */
  lemma {:induction false} RunSplits<P>(ops: seq<Op<P>>)
    ensures Split(Run(ops)) && Timed(Run(ops))
  {
    assert Split(Run<P>([])) && Timed(Run<P>([]));
    hide Split, Timed, Next;
    if ops != [] {
      RunSplits(ops[..|ops| - 1]);
      NextSplits(Run(ops[..|ops| - 1]), ops[|ops| - 1]);
      NextTimed(Run(ops[..|ops| - 1]), ops[|ops| - 1]);
    }
  }

  /** No post is lost early: one written less than a TTL ago, with fewer than MAX_LEN newer ones, has been
      drained or is still buffered. */
  lemma {:induction false} NoEarlyLoss<P>(ops: seq<Op<P>>, i: nat)
    requires i < |Run(ops).log| && i < |Run(ops).times|
    requires Run(ops).now < Run(ops).times[i] + 48.0 * 3600.0 && |Run(ops).log| <= i + 50_000
    ensures var h := Run(ops);
      |h.fates| <= |h.log| && if i < |h.fates| then h.fates[i] == Drained
      else h.entry.Some? && i - |h.fates| < |h.entry.value.posts| && h.entry.value.posts[i - |h.fates|] == h.log[i]
  {
    var h := Run(ops);
    RunSplits(ops);
    hide Run;
  }

  /** The buffer is bounded, and nothing is served once the TTL has passed since the last write. */
  lemma {:induction false} BoundedAndShortLived<P>(ops: seq<Op<P>>, later: real)
    ensures |Live(Run(ops).entry, Run(ops).now)| <= 50_000
    ensures later >= Run(ops).lastWrite + 48.0 * 3600.0 ==> Live(Run(ops).entry, later) == []
  {
    RunSplits(ops);
  }

  /** Positions drained up to position n. */
  function CountDrained(fates: seq<Fate>): nat {
    if fates == [] then 0
    else CountDrained(fates[..|fates| - 1]) + (if fates[|fates| - 1] == Drained then 1 else 0)
  }

  /** The drained output has one post for each drained position of the log, so none comes out twice. */
  lemma {:induction false} DrainedOnce<P>(log: seq<P>, fates: seq<Fate>, i: nat)
    requires |fates| <= |log| && i < |fates| && fates[i] == Drained
    ensures |DrainedOf(log, fates)| == CountDrained(fates)
    ensures CountDrained(fates[..i]) < |DrainedOf(log, fates)|
    ensures DrainedOf(log, fates)[CountDrained(fates[..i])] == log[i]
  {
    var k := |fates| - 1;
    DrainedLength(log, fates);
    DrainedLength(log, fates[..k]);
    if i < k {
      DrainedOnce(log, fates[..k], i);
      assert fates[..k][..i] == fates[..i];
    }
  }

  lemma {:induction false} DrainedLength<P>(log: seq<P>, fates: seq<Fate>)
    requires |fates| <= |log|
    ensures |DrainedOf(log, fates)| == CountDrained(fates)
  {
    if fates != [] { DrainedLength(log, fates[..|fates| - 1]); }
  }
}
