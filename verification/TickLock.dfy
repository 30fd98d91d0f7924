/** The global collect-tick lock: SET NX EX, owner-checked release under WATCH, soft and hard task
    limits, crashes, and the interleavings of any number of workers around one Redis key. */
module TickLock {
  import opened Wrappers

  datatype Lease = Lease(token: nat, expires: real)

  /** The key as a client sees it, with the modification count that WATCH compares. */
  datatype Key = Key(entry: Option<Lease>, version: nat)

  datatype Config = Config(ttl: real, grace: real) {
    predicate Valid() { ttl > 0.0 && grace >= 0.0 }
  }

  // ---------- the Redis commands ----------

  predicate Held(k: Key, now: real) { k.entry.Some? && now < k.entry.value.expires }

  function SetNx(k: Key, token: nat, ttl: real, now: real): (Key, bool) {
    if Held(k, now) then (k, false) else (Key(Some(Lease(token, now + ttl)), k.version + 1), true)
  }

  function Get(k: Key, now: real): Option<nat> {
    if Held(k, now) then Some(k.entry.value.token) else None
  }

  /** MULTI/EXEC under WATCH: no effect when the key was modified since. */
  function ExecDelete(k: Key, watched: nat, delete: bool): (Key, bool) {
    if k.version != watched then (k, false)
    else if delete && k.entry.Some? then (Key(None, k.version + 1), true)
    else (k, true)
  }

  // ---------- one worker's tick ----------

  datatype Phase =
    | Starting
    | Body(token: nat, acquired: real)
    | Releasing(token: nat)
    | Watched(token: nat, version: nat)
    | Checked(token: nat, version: nat, delete: bool)

  datatype Worker = Worker(start: real, phase: Phase)

  datatype State = State(now: real, key: Key, nextToken: nat, workers: map<nat, Worker>)

  datatype Step =
    | Advance(to: real)
    | Begin(w: nat)
    | Acquire(w: nat)
    | EndBody(w: nat)
    | Watch(w: nat)
    | Check(w: nat)
    | Exec(w: nat)
    | Expire(countsAsModified: bool)
    | Kill(w: nat)

  const IDLE := State(0.0, Key(None, 0), 0, map[])

  predicate InPhase(s: State, w: nat, p: Phase -> bool) { w in s.workers && p(s.workers[w].phase) }

  /** The hard limit: no worker outlives start + ttl + grace. */
  predicate Enabled(cfg: Config, s: State, step: Step) {
    match step
    case Advance(to) => s.now <= to && forall w :: w in s.workers ==> to <= s.workers[w].start + cfg.ttl + cfg.grace
    case Begin(w) => w !in s.workers
    case Acquire(w) => InPhase(s, w, (p: Phase) => p.Starting?)
    case EndBody(w) => InPhase(s, w, (p: Phase) => p.Body?)
    case Watch(w) => InPhase(s, w, (p: Phase) => p.Releasing?)
    case Check(w) => InPhase(s, w, (p: Phase) => p.Watched?)
    case Exec(w) => InPhase(s, w, (p: Phase) => p.Checked?)
    case Expire(_) => s.key.entry.Some? && s.key.entry.value.expires <= s.now
    case Kill(w) => w in s.workers
  }

  function SetPhase(s: State, w: nat, p: Phase): State
    requires w in s.workers
  {
    s.(workers := s.workers[w := s.workers[w].(phase := p)])
  }

  function Apply(cfg: Config, s: State, step: Step): State
    requires Enabled(cfg, s, step)
  {
    match step
    case Advance(to) => s.(now := to)
    case Begin(w) => s.(workers := s.workers[w := Worker(s.now, Starting)])
    case Acquire(w) =>
      var (key, acquired) := SetNx(s.key, s.nextToken, cfg.ttl, s.now);
      var s' := s.(key := key, nextToken := s.nextToken + 1);
      if acquired then SetPhase(s', w, Body(s.nextToken, s.now)) else s'.(workers := s.workers - {w})
    case EndBody(w) => SetPhase(s, w, Releasing(s.workers[w].phase.token))
    case Watch(w) => SetPhase(s, w, Watched(s.workers[w].phase.token, s.key.version))
    case Check(w) =>
      var p := s.workers[w].phase;
      SetPhase(s, w, Checked(p.token, p.version, Get(s.key, s.now) == Some(p.token)))
    case Exec(w) =>
      var p := s.workers[w].phase;
      var (key, committed) := ExecDelete(s.key, p.version, p.delete);
      if committed then s.(key := key, workers := s.workers - {w}) else SetPhase(s, w, Releasing(p.token))
    case Expire(counts) => s.(key := Key(None, s.key.version + (if counts then 1 else 0)))
    case Kill(w) => s.(workers := s.workers - {w})
  }

  /** Any schedule is allowed; a step that is not possible does nothing. */
  function Run(cfg: Config, steps: seq<Step>): State {
    if steps == [] then IDLE
    else
      var s := Run(cfg, steps[..|steps| - 1]);
      var step := steps[|steps| - 1];
      if Enabled(cfg, s, step) then Apply(cfg, s, step) else s
  }

  // ---------- the invariant ----------

  ghost predicate TokenOf(s: State, w: nat, token: nat) {
    w in s.workers && !s.workers[w].phase.Starting? && s.workers[w].phase.token == token
  }

  ghost predicate InBody(s: State, w: nat) { w in s.workers && s.workers[w].phase.Body? }

  ghost predicate WorkerOk(cfg: Config, s: State, w: nat)
    requires w in s.workers
  {
    var worker := s.workers[w];
    && worker.start <= s.now <= worker.start + cfg.ttl + cfg.grace
    && match worker.phase
       case Starting => true
       case Body(token, acquired) =>
         && token < s.nextToken && worker.start <= acquired <= s.now
         && (s.now < acquired + cfg.ttl ==> s.key.entry == Some(Lease(token, acquired + cfg.ttl)))
       case Releasing(token) => token < s.nextToken
       case Watched(token, version) => token < s.nextToken && version <= s.key.version
       case Checked(token, version, delete) =>
         && token < s.nextToken && version <= s.key.version
         && (delete && version == s.key.version && s.key.entry.Some? ==> s.key.entry.value.token == token)
  }

  /** Bodies that overlap were acquired at least a lock lifetime apart. */
  ghost predicate Apart(cfg: Config, s: State, w1: nat, w2: nat) {
    InBody(s, w1) && InBody(s, w2) && w1 != w2 ==>
      var a1, a2 := s.workers[w1].phase.acquired, s.workers[w2].phase.acquired;
      a1 + cfg.ttl <= a2 || a2 + cfg.ttl <= a1
  }

  ghost predicate TokensUnique(s: State) {
    forall w1: nat, w2: nat, t: nat :: TokenOf(s, w1, t) && TokenOf(s, w2, t) ==> w1 == w2
  }

  ghost predicate KeyOk(cfg: Config, s: State) {
    s.key.entry.Some? ==>
      s.key.entry.value.token < s.nextToken && s.key.entry.value.expires <= s.now + cfg.ttl
  }

  ghost predicate Inv(cfg: Config, s: State) {
    && (forall w :: w in s.workers ==> WorkerOk(cfg, s, w))
    && TokensUnique(s)
    && (forall w1, w2 :: Apart(cfg, s, w1, w2))
    && KeyOk(cfg, s)
  }

  lemma StepKeepsTokens(cfg: Config, s: State, step: Step)
    requires Inv(cfg, s) && Enabled(cfg, s, step)
    ensures TokensUnique(Apply(cfg, s, step))
  {
    var s' := Apply(cfg, s, step);
    forall w: nat, t: nat | TokenOf(s', w, t)
      ensures TokenOf(s, w, t) || (step == Acquire(w) && t == s.nextToken)
    {
    }
    forall w: nat, t: nat | TokenOf(s, w, t) ensures t < s.nextToken {
      assert WorkerOk(cfg, s, w);
    }
  }

  lemma StepKeepsApart(cfg: Config, s: State, step: Step, w1: nat, w2: nat)
    requires cfg.Valid() && Inv(cfg, s) && Enabled(cfg, s, step)
    ensures Apart(cfg, Apply(cfg, s, step), w1, w2)
  {
    assert Apart(cfg, s, w1, w2);
    if w1 in s.workers { assert WorkerOk(cfg, s, w1); }
    if w2 in s.workers { assert WorkerOk(cfg, s, w2); }
  }

  lemma StepKeepsWorker(cfg: Config, s: State, step: Step, w: nat)
    requires cfg.Valid() && Inv(cfg, s) && Enabled(cfg, s, step)
    requires w in Apply(cfg, s, step).workers
    ensures WorkerOk(cfg, Apply(cfg, s, step), w)
  {
    if w in s.workers { assert WorkerOk(cfg, s, w); }
    if step.Exec? {
      ExecRemovesOwnLock(cfg, s, step.w);
      if w in s.workers && s.workers[w].phase.Body? && w != step.w {
        var t := s.workers[w].phase.token;
        assert TokenOf(s, w, t) && !TokenOf(s, step.w, t);
      }
    }
  }

  lemma ExecRemovesOwnLock(cfg: Config, s: State, w: nat)
    requires Inv(cfg, s) && Enabled(cfg, s, Exec(w))
    ensures Apply(cfg, s, Exec(w)).key != s.key ==>
      s.key.entry.Some? && TokenOf(s, w, s.key.entry.value.token)
  {
    assert WorkerOk(cfg, s, w);
  }

  lemma StepKeepsInv(cfg: Config, s: State, step: Step)
    requires cfg.Valid() && Inv(cfg, s) && Enabled(cfg, s, step)
    ensures Inv(cfg, Apply(cfg, s, step))
  {
    var s' := Apply(cfg, s, step);
    StepKeepsTokens(cfg, s, step);
    forall w1, w2 ensures Apart(cfg, s', w1, w2) { StepKeepsApart(cfg, s, step, w1, w2); }
    forall w | w in s'.workers ensures WorkerOk(cfg, s', w) { StepKeepsWorker(cfg, s, step, w); }
  }

  lemma {:induction false} RunKeepsInv(cfg: Config, steps: seq<Step>)
    requires cfg.Valid()
    ensures Inv(cfg, Run(cfg, steps))
  {
    if steps != [] {
      var front, step := steps[..|steps| - 1], steps[|steps| - 1];
      RunKeepsInv(cfg, front);
      if Enabled(cfg, Run(cfg, front), step) { StepKeepsInv(cfg, Run(cfg, front), step); }
    }
  }

  // ---------- what every schedule guarantees ----------

  /** A release deletes the key only while the releasing worker's own token is in it. */
  lemma ReleaseRemovesOnlyOwnLock(cfg: Config, steps: seq<Step>, w: nat)
    requires cfg.Valid() && Enabled(cfg, Run(cfg, steps), Exec(w))
    ensures var s := Run(cfg, steps);
      Apply(cfg, s, Exec(w)).key != s.key ==>
        s.key.entry.Some? && s.key.entry.value.token == s.workers[w].phase.token
  {
    RunKeepsInv(cfg, steps);
    ExecRemovesOwnLock(cfg, Run(cfg, steps), w);
  }

  /** A tick that ends before its lock's TTL is up frees the lock, so the next tick can take it at once. */
  lemma PromptRelease(cfg: Config, steps: seq<Step>, w: nat)
    requires cfg.Valid() && InBody(Run(cfg, steps), w)
    requires var s := Run(cfg, steps); s.now < s.workers[w].phase.acquired + cfg.ttl
    ensures var after := Run(cfg, steps + [EndBody(w)] + [Watch(w)] + [Check(w)] + [Exec(w)]);
      && after.key.entry == None && w !in after.workers && after.now == Run(cfg, steps).now
      && forall v :: v != w && v in Run(cfg, steps).workers ==>
           v in after.workers && after.workers[v] == Run(cfg, steps).workers[v]
  {
    RunKeepsInv(cfg, steps);
    assert WorkerOk(cfg, Run(cfg, steps), w);
    RunSnoc(cfg, steps, EndBody(w));
    RunSnoc(cfg, steps + [EndBody(w)], Watch(w));
    RunSnoc(cfg, steps + [EndBody(w)] + [Watch(w)], Check(w));
    RunSnoc(cfg, steps + [EndBody(w)] + [Watch(w)] + [Check(w)], Exec(w));
  }

  /** A release undisturbed from its WATCH on is over after one attempt: it frees the key if the token is
      still in it, and otherwise leaves it as it was. */
  lemma ReleaseCompletes(cfg: Config, steps: seq<Step>, w: nat)
    requires w in Run(cfg, steps).workers && Run(cfg, steps).workers[w].phase.Releasing?
    ensures var s, after := Run(cfg, steps), Run(cfg, steps + [Watch(w)] + [Check(w)] + [Exec(w)]);
      var own := s.key.entry.Some? && s.now < s.key.entry.value.expires
        && s.key.entry.value.token == s.workers[w].phase.token;
      && w !in after.workers && after.now == s.now
      && after.key.entry == if own then None else s.key.entry
  {
    RunSnoc(cfg, steps, Watch(w));
    RunSnoc(cfg, steps + [Watch(w)], Check(w));
    RunSnoc(cfg, steps + [Watch(w)] + [Check(w)], Exec(w));
  }

  /** A release that another client's write disturbs has no effect and starts again with the same token. */
  lemma DisturbedReleaseRetries(cfg: Config, steps: seq<Step>, w: nat)
    requires w in Run(cfg, steps).workers && Run(cfg, steps).workers[w].phase.Checked?
    requires Run(cfg, steps).workers[w].phase.version != Run(cfg, steps).key.version
    ensures var s, after := Run(cfg, steps), Run(cfg, steps + [Exec(w)]);
      && after.key == s.key && after.now == s.now
      && after.workers == s.workers[w := Worker(s.workers[w].start, Releasing(s.workers[w].phase.token))]
  {
    RunSnoc(cfg, steps, Exec(w));
  }

  lemma RunSnoc(cfg: Config, steps: seq<Step>, step: Step)
    ensures Run(cfg, steps + [step]) ==
      var s := Run(cfg, steps);
      if Enabled(cfg, s, step) then Apply(cfg, s, step) else s
  {
    assert (steps + [step])[..|steps|] == steps;
  }

  /** Two tick bodies overlap only in the last `grace` seconds before the older one's hard limit. */
  lemma OverlapOnlyInGrace(cfg: Config, steps: seq<Step>, older: nat, newer: nat)
    requires cfg.Valid() && older != newer
    requires InBody(Run(cfg, steps), older) && InBody(Run(cfg, steps), newer)
    requires var s := Run(cfg, steps); s.workers[older].phase.acquired <= s.workers[newer].phase.acquired
    ensures var s := Run(cfg, steps); var hardLimit := s.workers[older].start + cfg.ttl + cfg.grace;
      hardLimit - cfg.grace <= s.workers[newer].phase.acquired <= s.now <= hardLimit
  {
    RunKeepsInv(cfg, steps);
    var s := Run(cfg, steps);
    assert WorkerOk(cfg, s, older) && WorkerOk(cfg, s, newer);
    assert Apart(cfg, s, older, newer);
  }

  /** A lock left behind by a killed worker is gone one lifetime later. */
  lemma {:induction false} NoDeadlock(cfg: Config, steps: seq<Step>, later: real)
    requires cfg.Valid() && later >= Run(cfg, steps).now + cfg.ttl
    ensures !Held(Run(cfg, steps).key, later)
  {
    RunKeepsInv(cfg, steps);
  }

  ghost predicate AtMostTwoBodies(s: State) {
    forall a, b, c :: InBody(s, a) && InBody(s, b) && InBody(s, c) ==> a == b || b == c || a == c
  }

  lemma ThreeBodiesNeedLongGrace(cfg: Config, s: State, a: nat, b: nat, c: nat)
    requires cfg.Valid() && Inv(cfg, s) && a != b && b != c && a != c
    requires InBody(s, a) && InBody(s, b) && InBody(s, c)
    ensures cfg.ttl <= cfg.grace
  {
    assert WorkerOk(cfg, s, a) && WorkerOk(cfg, s, b) && WorkerOk(cfg, s, c);
    assert Apart(cfg, s, a, b) && Apart(cfg, s, b, c) && Apart(cfg, s, a, c);
  }

  function TickAt(steps: seq<Step>, w: nat): seq<Step> { steps + [Begin(w)] + [Acquire(w)] }

  function TwoTicks(cfg: Config): seq<Step> { TickAt(TickAt([], 0) + [Advance(cfg.ttl)], 1) }

  function ThreeTicks(cfg: Config): seq<Step> { TickAt(TwoTicks(cfg) + [Advance(cfg.ttl + cfg.ttl)], 2) }

  /** One more tick begins at t and finds the previous lock just expired. */
  lemma TickBegins(cfg: Config, steps: seq<Step>, w: nat, t: real)
    requires cfg.Valid() && w !in Run(cfg, steps).workers
    requires Run(cfg, steps).now == t && !Held(Run(cfg, steps).key, t)
    ensures var s := Run(cfg, steps);
      Run(cfg, TickAt(steps, w)) ==
      State(t, Key(Some(Lease(s.nextToken, t + cfg.ttl)), s.key.version + 1), s.nextToken + 1,
            s.workers[w := Worker(t, Body(s.nextToken, t))])
  {
    RunSnoc(cfg, steps, Begin(w));
    RunSnoc(cfg, steps + [Begin(w)], Acquire(w));
    var s := Run(cfg, steps);
    assert s.workers[w := Worker(t, Starting)][w := Worker(t, Body(s.nextToken, t))] ==
      s.workers[w := Worker(t, Body(s.nextToken, t))];
  }

  lemma ClockMoves(cfg: Config, steps: seq<Step>, to: real)
    requires Enabled(cfg, Run(cfg, steps), Advance(to))
    ensures Run(cfg, steps + [Advance(to)]) == Run(cfg, steps).(now := to)
  {
    RunSnoc(cfg, steps, Advance(to));
  }

  lemma TwoTicksMeet(cfg: Config)
    requires cfg.Valid() && cfg.ttl <= cfg.grace
    ensures var t := cfg.ttl;
      Run(cfg, TwoTicks(cfg)) ==
      State(t, Key(Some(Lease(1, t + t)), 2), 2,
            map[0 := Worker(0.0, Body(0, 0.0)), 1 := Worker(t, Body(1, t))])
  {
    var t := cfg.ttl;
    assert Run(cfg, []) == IDLE;
    hide Run, Apply, TickAt;
    TickBegins(cfg, [], 0, 0.0);
    ClockMoves(cfg, TickAt([], 0), t);
    TickBegins(cfg, TickAt([], 0) + [Advance(t)], 1, t);
  }

  /** With a grace of at least a lock lifetime, three overrunning ticks do meet. */
  lemma ThreeTicksMeet(cfg: Config)
    requires cfg.Valid() && cfg.ttl <= cfg.grace
    ensures !AtMostTwoBodies(Run(cfg, ThreeTicks(cfg)))
  {
    var t := cfg.ttl;
    TwoTicksMeet(cfg);
    hide Run, Apply, TickAt, TwoTicks;
    ClockMoves(cfg, TwoTicks(cfg), t + t);
    TickBegins(cfg, TwoTicks(cfg) + [Advance(t + t)], 2, t + t);
    var s := Run(cfg, ThreeTicks(cfg));
    assert InBody(s, 0) && InBody(s, 1) && InBody(s, 2);
  }

  /** At most two bodies ever run at once exactly when the lock outlives the grace. */
  lemma AtMostTwoIffTtlExceedsGrace(cfg: Config)
    requires cfg.Valid()
    ensures (forall steps :: AtMostTwoBodies(Run(cfg, steps))) <==> cfg.ttl > cfg.grace
  {
    if cfg.ttl > cfg.grace {
      forall steps ensures AtMostTwoBodies(Run(cfg, steps)) {
        RunKeepsInv(cfg, steps);
        var s := Run(cfg, steps);
        forall a, b, c | InBody(s, a) && InBody(s, b) && InBody(s, c) ensures a == b || b == c || a == c {
          if a != b && b != c && a != c { ThreeBodiesNeedLongGrace(cfg, s, a, b, c); }
        }
      }
    } else {
      ThreeTicksMeet(cfg);
    }
  }

  // ---------- the lock functions on the key ----------

  class RedisKey {
    var entry: Option<Lease>
    var version: nat

    function View(): Key
      reads this
    {
      Key(entry, version)
    }

    constructor ()
      ensures View() == IDLE.key
    {
      entry, version := None, 0;
    }

    /** acquire_collect_tick_lock: True when this token took the lock. */
    method Acquire(token: nat, ttl: real, now: real) returns (acquired: bool)
      modifies this
      ensures (View(), acquired) == SetNx(old(View()), token, ttl, now)
    {
      if entry.Some? && now < entry.value.expires { return false; }
      entry, version := Some(Lease(token, now + ttl)), version + 1;
      return true;
    }

    /** One WATCH/GET/MULTI/EXEC attempt of the release; `interference` is what another client's write
        does to the key between the read and the commit. */
    method ReleaseAttempt(token: nat, now: real, interference: Option<Key>) returns (committed: bool, deleted: bool)
      requires interference.Some? ==> interference.value.version > version
      modifies this
      ensures deleted == (Get(old(View()), now) == Some(token))
      ensures committed == interference.None?
      ensures interference.Some? ==> View() == interference.value
      ensures interference.None? ==> View() == ExecDelete(old(View()), old(version), deleted).0
    {
      var watched := version;
      var current := if entry.Some? && now < entry.value.expires then Some(entry.value.token) else None;
      deleted := current == Some(token);
      if interference.Some? {
        entry, version := interference.value.entry, interference.value.version;
      }
      if version != watched { return false, deleted; }
      if deleted { entry, version := None, version + 1; }
      committed := true;
    }

    /** release_collect_tick_lock: retried until an attempt commits; the flag is the last attempt's. */
    method Release(token: nat, now: real, interferences: seq<Key>) returns (deleted: bool)
      requires interferences != [] ==> interferences[0].version > version
      requires forall i, j :: 0 <= i < j < |interferences| ==> interferences[j].version > interferences[i].version
      modifies this
      ensures var last := if interferences == [] then old(View()) else interferences[|interferences| - 1];
        && deleted == (Get(last, now) == Some(token))
        && View() == ExecDelete(last, last.version, deleted).0
    {
      ghost var before := View();
      var committed;
      for i := 0 to |interferences|
        invariant View() == if i == 0 then before else interferences[i - 1]
        invariant i < |interferences| ==> interferences[i].version > version
      {
        committed, deleted := ReleaseAttempt(token, now, Some(interferences[i]));
        assert View().version == interferences[i].version;
      }
      committed, deleted := ReleaseAttempt(token, now, None);
    }
  }
}
