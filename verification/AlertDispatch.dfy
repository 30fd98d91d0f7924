/** Alert dispatch: multi-channel delivery, retries with capped backoff, rescheduling before
    `deliver_after`, and the resweep of stale pending alerts. Each dispatch is one atomic step. */
module AlertDispatch {
  import opened Wrappers

  datatype Status = Pending | Delivered | Failed

  datatype Alert = Alert(
    status: Status, attempts: nat, deliverAfter: Option<real>, firstSeen: real, deliveredAt: Option<real>)

  /** A queued dispatch. `reschedules` and `deliveries` count what its line of messages has done. */
  datatype Msg = Msg(alertId: nat, eta: real, retries: nat, reschedules: nat, deliveries: nat)

  datatype Config = Config(maxRetries: nat, backoff: nat, cap: nat, grace: real, batch: nat)

  /** How one channel's send fares. */
  datatype Send = SendOk | SendNotOk | SendTransient | SendPermanent

  /** The world outside one dispatch: whether the owner exists, and the resolved channels' results. */
  datatype Env = Env(owner: bool, sends: seq<Send>)

  datatype Entry = Entry(alertId: nat, at: real)

  datatype World = World(now: real, alerts: map<nat, Alert>, queue: seq<Msg>, log: seq<Entry>)

  // ---------- delivery ----------

  /** What deliver does: a committed row, or an exception that rolls the row back. */
  datatype Delivery = Committed(alert: Alert) | RaisedTransient | RaisedPermanent

  function SendCount(a: Alert, env: Env): nat {
    if a.status == Delivered || !env.owner then 0 else |env.sends|
  }

  function Deliver(a: Alert, env: Env, now: real): Delivery {
    if a.status == Delivered then Committed(a)
    else if !env.owner || env.sends == [] then RaisedPermanent
    else
      var tried := a.(attempts := a.attempts + |env.sends|);
      if SendOk in env.sends then Committed(tried.(status := Delivered, deliveredAt := Some(now)))
      else if SendTransient in env.sends then RaisedTransient
      else Committed(tried.(status := Failed))
  }

  function Pow2(n: nat): (r: nat)
    ensures r >= 1
  {
    if n == 0 then 1 else 2 * Pow2(n - 1)
  }

  function RetryDelay(cfg: Config, retries: nat): nat {
    var d := cfg.backoff * Pow2(retries);
    if d < cfg.cap then d else cfg.cap
  }

  function Ceil(x: real): int { -((-x).Floor) }

  function Repeat(e: Entry, n: nat): seq<Entry> { seq(n, _ => e) }

  function MarkFailed(alerts: map<nat, Alert>, id: nat): map<nat, Alert> {
    if id in alerts then alerts[id := alerts[id].(status := Failed)] else alerts
  }

  predicate NotDue(a: Alert, now: real) { a.deliverAfter.Some? && a.deliverAfter.value > now }

  /** The dispatch of one message, already taken off the queue. */
  function Dispatch(cfg: Config, w: World, m: Msg, env: Env): World {
    if m.alertId !in w.alerts then w
    else
      var a := w.alerts[m.alertId];
      if NotDue(a, w.now) then
        w.(queue := w.queue + [Msg(m.alertId, w.now + Ceil(a.deliverAfter.value - w.now) as real,
                                   0, m.reschedules + 1, m.deliveries)])
      else
        var sent := w.(log := w.log + Repeat(Entry(m.alertId, w.now), SendCount(a, env)));
        match Deliver(a, env, w.now)
        case Committed(a') => sent.(alerts := w.alerts[m.alertId := a'])
        case RaisedPermanent => sent.(alerts := MarkFailed(w.alerts, m.alertId))
        case RaisedTransient =>
          if m.retries >= cfg.maxRetries then sent.(alerts := MarkFailed(w.alerts, m.alertId))
          else sent.(queue := w.queue + [Msg(m.alertId, w.now + RetryDelay(cfg, m.retries) as real,
                                             m.retries + 1, m.reschedules, m.deliveries + 1)])
  }

  function Fresh(id: nat, eta: real): Msg { Msg(id, eta, 0, 0, 0) }

  // ---------- the resweep ----------

  predicate Stale(cfg: Config, w: World, id: nat) {
    && id in w.alerts && w.alerts[id].status == Pending
    && w.alerts[id].firstSeen < w.now - cfg.grace
    && !NotDue(w.alerts[id], w.now)
  }

  /** The query: the oldest stale rows, at most `batch` of them, oldest first. */
  ghost predicate Selection(cfg: Config, w: World, rows: seq<nat>) {
    && |rows| <= cfg.batch
    && (forall i :: 0 <= i < |rows| ==> Stale(cfg, w, rows[i]))
    && (forall i, j :: 0 <= i < j < |rows| ==>
          rows[i] != rows[j] && w.alerts[rows[i]].firstSeen <= w.alerts[rows[j]].firstSeen)
    && (forall id :: Stale(cfg, w, id) && id !in rows ==>
          |rows| == cfg.batch && forall i :: 0 <= i < |rows| ==> w.alerts[rows[i]].firstSeen <= w.alerts[id].firstSeen)
  }

  /** The rows whose enqueue the broker accepts. */
  function Reenqueued(rows: seq<nat>, accepts: nat -> bool, eta: real): seq<Msg> {
    if rows == [] then []
    else
      var last := rows[|rows| - 1];
      Reenqueued(rows[..|rows| - 1], accepts, eta) + (if accepts(last) then [Fresh(last, eta)] else [])
  }

  function Resweep(w: World, rows: seq<nat>, accepts: nat -> bool): World {
    w.(queue := w.queue + Reenqueued(rows, accepts, w.now))
  }

  // ---------- the tasks over their store and queue ----------

  class Worker {
    var now: real
    var alerts: map<nat, Alert>
    var queue: seq<Msg>
    var log: seq<Entry>

    function View(): World
      reads this
    {
      World(now, alerts, queue, log)
    }

    /** notifier.deliver on a loaded row; the caller commits or rolls back. */
    method DeliverAlert(id: nat, a: Alert, env: Env) returns (r: Delivery)
      modifies this`log
      ensures r == Deliver(a, env, now)
      ensures log == old(log) + Repeat(Entry(id, now), SendCount(a, env))
    {
      if a.status == Delivered {
        assert log == old(log) + Repeat(Entry(id, now), 0);
        return Committed(a);
      }
      if !env.owner || env.sends == [] {
        assert log == old(log) + Repeat(Entry(id, now), 0);
        return RaisedPermanent;
      }
      var alert := a;
      var anySuccess, transient := false, false;
      for i := 0 to |env.sends|
        invariant alert == a.(attempts := a.attempts + i)
        invariant log == old(log) + Repeat(Entry(id, now), i)
        invariant anySuccess <==> SendOk in env.sends[..i]
        invariant transient <==> SendTransient in env.sends[..i]
      {
        alert := alert.(attempts := alert.attempts + 1);
        log := log + [Entry(id, now)];
        match env.sends[i] {
          case SendOk => anySuccess := true;
          case SendNotOk =>
          case SendTransient => transient := true;
          case SendPermanent =>
        }
        assert env.sends[..i + 1] == env.sends[..i] + [env.sends[i]];
        assert Repeat(Entry(id, now), i + 1) == Repeat(Entry(id, now), i) + [Entry(id, now)];
      }
      assert env.sends[..|env.sends|] == env.sends;
      if anySuccess { return Committed(alert.(status := Delivered, deliveredAt := Some(now))); }
      if transient { return RaisedTransient; }
      return Committed(alert.(status := Failed));
    }

    method MarkAlertFailed(id: nat)
      modifies this`alerts
      ensures alerts == MarkFailed(old(alerts), id)
    {
      if id in alerts { alerts := alerts[id := alerts[id].(status := Failed)]; }
    }

    /** dispatch_alert for message m, already taken off the queue. */
    method DispatchAlert(cfg: Config, m: Msg, env: Env)
      modifies this
      ensures View() == Dispatch(cfg, old(View()), m, env)
    {
      if m.alertId !in alerts { return; }
      var alert := alerts[m.alertId];
      if alert.deliverAfter.Some? && alert.deliverAfter.value > now {
        var remaining := Ceil(alert.deliverAfter.value - now);
        queue := queue + [Msg(m.alertId, now + remaining as real, 0, m.reschedules + 1, m.deliveries)];
        return;
      }
      var r := DeliverAlert(m.alertId, alert, env);
      match r {
        case Committed(a) => alerts := alerts[m.alertId := a];
        case RaisedPermanent => MarkAlertFailed(m.alertId);
        case RaisedTransient =>
          if m.retries >= cfg.maxRetries {
            MarkAlertFailed(m.alertId);
          } else {
            var countdown := RetryDelay(cfg, m.retries);
            queue := queue + [Msg(m.alertId, now + countdown as real, m.retries + 1, m.reschedules, m.deliveries + 1)];
          }
      }
    }

    /** resweep_pending_alerts over the selected rows; a refused enqueue never stops the loop. */
    method ResweepPending(cfg: Config, rows: seq<nat>, accepts: nat -> bool) returns (reenqueued: nat)
      requires Selection(cfg, View(), rows)
      modifies this`queue
      ensures View() == Resweep(old(View()), rows, accepts)
      ensures reenqueued == |Reenqueued(rows, accepts, now)|
    {
      reenqueued := 0;
      for i := 0 to |rows|
        invariant queue == old(queue) + Reenqueued(rows[..i], accepts, now)
        invariant reenqueued == |Reenqueued(rows[..i], accepts, now)|
      {
        assert rows[..i + 1][..i] == rows[..i];
        if accepts(rows[i]) {
          queue := queue + [Fresh(rows[i], now)];
          reenqueued := reenqueued + 1;
        }
      }
      assert rows[..|rows|] == rows;
    }
  }

  // ---------- runs ----------

  datatype Step =
    | Pass(to: real)
    | Deliverable(index: nat, env: Env)
    | Sweep(rows: seq<nat>, accepts: nat -> bool)
    | Insert(id: nat, alert: Alert)
    | Enqueue(id: nat, eta: real)

  ghost predicate Enabled(cfg: Config, w: World, step: Step) {
    match step
    case Pass(to) => w.now <= to
    case Deliverable(i, _) => i < |w.queue| && w.queue[i].eta <= w.now
    case Sweep(rows, _) => Selection(cfg, w, rows)
    case Insert(id, a) => id !in w.alerts && a.status == Pending && a.attempts == 0 && a.deliveredAt == None
    case Enqueue(id, _) => id in w.alerts
  }

  function Without(q: seq<Msg>, i: nat): seq<Msg>
    requires i < |q|
  {
    q[..i] + q[i + 1..]
  }

  ghost function Next(cfg: Config, w: World, step: Step): World
    requires Enabled(cfg, w, step)
  {
    match step
    case Pass(to) => w.(now := to)
    case Deliverable(i, env) => Dispatch(cfg, w.(queue := Without(w.queue, i)), w.queue[i], env)
    case Sweep(rows, accepts) => Resweep(w, rows, accepts)
    case Insert(id, a) => w.(alerts := w.alerts[id := a])
    case Enqueue(id, eta) => w.(queue := w.queue + [Fresh(id, eta)])
  }

  ghost function RunFrom(cfg: Config, w: World, steps: seq<Step>): World {
    if steps == [] then w
    else
      var before := RunFrom(cfg, w, steps[..|steps| - 1]);
      var step := steps[|steps| - 1];
      if Enabled(cfg, before, step) then Next(cfg, before, step) else before
  }

  const EMPTY := World(0.0, map[], [], [])

  // ---------- messages: rescheduled at most once, then retried boundedly ----------

  ghost predicate MsgOk(cfg: Config, w: World, m: Msg) {
    && m.reschedules <= 1 && m.deliveries == m.retries <= cfg.maxRetries
    && (m.reschedules == 1 || m.retries > 0 ==> m.alertId in w.alerts && !NotDue(w.alerts[m.alertId], m.eta))
  }

  ghost predicate QueueOk(cfg: Config, w: World) {
    forall i :: 0 <= i < |w.queue| ==> MsgOk(cfg, w, w.queue[i])
  }

  /** Steps never change when an alert may be delivered. */
  lemma DeadlineFixed(cfg: Config, w: World, step: Step, id: nat)
    requires Enabled(cfg, w, step) && id in w.alerts
    ensures id in Next(cfg, w, step).alerts
    ensures Next(cfg, w, step).alerts[id].deliverAfter == w.alerts[id].deliverAfter
  {
  }

  lemma CeilReaches(x: real)
    ensures x <= Ceil(x) as real < x + 1.0
  {
  }

  lemma {:induction false} FreshOnly(rows: seq<nat>, accepts: nat -> bool, eta: real, m: Msg)
    requires m in Reenqueued(rows, accepts, eta)
    ensures m.alertId in rows && accepts(m.alertId) && m == Fresh(m.alertId, eta)
  {
    if m in Reenqueued(rows[..|rows| - 1], accepts, eta) { FreshOnly(rows[..|rows| - 1], accepts, eta, m); }
  }

  /** The message a dispatch leaves behind is again in order. */
  lemma SuccessorOk(cfg: Config, w: World, m: Msg, env: Env)
    requires MsgOk(cfg, w, m) && m.eta <= w.now
    ensures var w' := Dispatch(cfg, w, m, env);
      && |w.queue| <= |w'.queue| <= |w.queue| + 1
      && w'.queue[..|w.queue|] == w.queue
      && (|w'.queue| > |w.queue| ==> MsgOk(cfg, w', w'.queue[|w.queue|]))
  {
    if m.alertId in w.alerts {
      var a := w.alerts[m.alertId];
      if NotDue(a, w.now) { CeilReaches(a.deliverAfter.value - w.now); }
    }
  }

  lemma StepKeepsQueue(cfg: Config, w: World, step: Step)
    requires Enabled(cfg, w, step) && QueueOk(cfg, w)
    ensures QueueOk(cfg, Next(cfg, w, step))
  {
    hide Dispatch, Reenqueued, Selection;
    var w' := Next(cfg, w, step);
    forall m | MsgOk(cfg, w, m) ensures MsgOk(cfg, w', m) {
      if m.alertId in w.alerts { DeadlineFixed(cfg, w, step, m.alertId); }
    }
    match step
    case Pass(_) =>
    case Deliverable(i, env) =>
      var rest := Without(w.queue, i);
      SuccessorOk(cfg, w.(queue := rest), w.queue[i], env);
      forall k | 0 <= k < |w'.queue| ensures MsgOk(cfg, w', w'.queue[k]) {
        if k < |rest| {
          assert w'.queue[k] == w'.queue[..|rest|][k] == rest[k];
          assert rest[k] == if k < i then w.queue[k] else w.queue[k + 1];
        }
      }
    case Sweep(rows, accepts) =>
      forall k | |w.queue| <= k < |w'.queue| ensures MsgOk(cfg, w', w'.queue[k]) {
        FreshOnly(rows, accepts, w.now, Reenqueued(rows, accepts, w.now)[k - |w.queue|]);
      }
    case Insert(_, _) =>
    case Enqueue(_, _) =>
  }

  /** In every run each message's line has been rescheduled at most once and, counting the dispatch it
      is queued for, makes at most maxRetries + 1 delivery attempts; none after its second wait is early. */
  lemma {:induction false} MessagesStayBounded(cfg: Config, steps: seq<Step>)
    ensures QueueOk(cfg, RunFrom(cfg, EMPTY, steps))
  {
    if steps != [] {
      var front, step := steps[..|steps| - 1], steps[|steps| - 1];
      MessagesStayBounded(cfg, front);
      var before := RunFrom(cfg, EMPTY, front);
      if Enabled(cfg, before, step) { StepKeepsQueue(cfg, before, step); }
    }
  }

  lemma {:induction false} Pow2Grows(n: nat)
    ensures Pow2(n) <= Pow2(n + 1)
  {
  }

  /** Retry delays start at the back-off and double until the cap, so they never shrink. */
  lemma {:induction false} DelaysGrowToCap(cfg: Config, r: nat)
    ensures RetryDelay(cfg, 0) == if cfg.backoff < cfg.cap then cfg.backoff else cfg.cap
    ensures RetryDelay(cfg, r + 1) ==
      if 2 * RetryDelay(cfg, r) < cfg.cap then 2 * RetryDelay(cfg, r) else cfg.cap
    ensures RetryDelay(cfg, r) <= RetryDelay(cfg, r + 1) <= cfg.cap
  {
    Pow2Grows(r);
    assert cfg.backoff * Pow2(r + 1) == 2 * (cfg.backoff * Pow2(r));
  }

  // ---------- sends: never early, never after delivery ----------

  ghost predicate LogOk(w: World) {
    forall k :: 0 <= k < |w.log| ==>
      w.log[k].alertId in w.alerts && !NotDue(w.alerts[w.log[k].alertId], w.log[k].at)
  }

  /** A step only adds log entries, each for a due alert that was not delivered. */
  lemma StepLogs(cfg: Config, w: World, step: Step, k: nat)
    requires Enabled(cfg, w, step)
    ensures w.log <= Next(cfg, w, step).log
    ensures |w.log| <= k < |Next(cfg, w, step).log| ==>
      var e := Next(cfg, w, step).log[k];
      e.at == w.now && e.alertId in w.alerts && w.alerts[e.alertId].status != Delivered && !NotDue(w.alerts[e.alertId], w.now)
  {
  }

  /** In every run no channel is sent to before the alert's deliver_after. */
  lemma {:induction false} NoEarlySend(cfg: Config, steps: seq<Step>)
    ensures LogOk(RunFrom(cfg, EMPTY, steps))
  {
    if steps != [] {
      var front, step := steps[..|steps| - 1], steps[|steps| - 1];
      NoEarlySend(cfg, front);
      var w := RunFrom(cfg, EMPTY, front);
      if Enabled(cfg, w, step) {
        var w' := Next(cfg, w, step);
        hide Next, Enabled;
        forall k | 0 <= k < |w'.log|
          ensures w'.log[k].alertId in w'.alerts && !NotDue(w'.alerts[w'.log[k].alertId], w'.log[k].at)
        {
          StepLogs(cfg, w, step, k);
          DeadlineFixed(cfg, w, step, w'.log[k].alertId);
        }
      }
    }
  }

  lemma StepKeepsDelivered(cfg: Config, w: World, step: Step, id: nat)
    requires Enabled(cfg, w, step) && id in w.alerts && w.alerts[id].status == Delivered
    ensures id in Next(cfg, w, step).alerts && Next(cfg, w, step).alerts[id] == w.alerts[id]
  {
  }

  /** Once delivered, an alert's row never changes again and no channel is sent to for it. */
  lemma {:induction false} NothingAfterDelivered(cfg: Config, w: World, steps: seq<Step>, id: nat, k: nat)
    requires id in w.alerts && w.alerts[id].status == Delivered
    ensures var after := RunFrom(cfg, w, steps);
      && id in after.alerts && after.alerts[id] == w.alerts[id]
      && w.log <= after.log
      && (|w.log| <= k < |after.log| ==> after.log[k].alertId != id)
  {
    if steps != [] {
      var front, step := steps[..|steps| - 1], steps[|steps| - 1];
      NothingAfterDelivered(cfg, w, front, id, k);
      var before := RunFrom(cfg, w, front);
      if Enabled(cfg, before, step) {
        StepKeepsDelivered(cfg, before, step, id);
        StepLogs(cfg, before, step, k);
      }
    }
  }

  // ---------- termination ----------

  function Weight(cfg: Config, m: Msg): int { 2 + cfg.maxRetries - m.retries - m.reschedules }

  function Work(cfg: Config, q: seq<Msg>): int {
    if q == [] then 0 else Work(cfg, q[..|q| - 1]) + Weight(cfg, q[|q| - 1])
  }

  lemma {:induction false} WorkConcat(cfg: Config, a: seq<Msg>, b: seq<Msg>)
    ensures Work(cfg, a + b) == Work(cfg, a) + Work(cfg, b)
  {
    if b == [] {
      assert a + b == a;
    } else {
      WorkConcat(cfg, a, b[..|b| - 1]);
      assert (a + b)[..|a + b| - 1] == a + b[..|b| - 1];
    }
  }

  lemma WorkOne(cfg: Config, m: Msg)
    ensures Work(cfg, [m]) == Weight(cfg, m)
  {
    assert [m][..0] == [];
  }

  lemma WorkWithout(cfg: Config, q: seq<Msg>, i: nat)
    requires i < |q|
    ensures Work(cfg, Without(q, i)) == Work(cfg, q) - Weight(cfg, q[i])
  {
    WorkConcat(cfg, q[..i], q[i + 1..]);
    WorkConcat(cfg, q[..i], [q[i]]);
    WorkConcat(cfg, q[..i + 1], q[i + 1..]);
    WorkOne(cfg, q[i]);
    assert q[..i] + [q[i]] == q[..i + 1] && q[..i + 1] + q[i + 1..] == q;
  }

  lemma {:induction false} WorkBound(cfg: Config, w: World, n: nat)
    requires QueueOk(cfg, w) && n <= |w.queue|
    ensures Work(cfg, w.queue[..n]) >= n
  {
    if n > 0 {
      WorkBound(cfg, w, n - 1);
      assert w.queue[..n][..n - 1] == w.queue[..n - 1];
      assert MsgOk(cfg, w, w.queue[n - 1]);
    }
  }

  /** Every dispatch uses up work, whatever its outcome. */
  lemma DispatchUsesWork(cfg: Config, w: World, i: nat, env: Env)
    requires QueueOk(cfg, w) && Enabled(cfg, w, Deliverable(i, env))
    ensures 0 <= Work(cfg, Next(cfg, w, Deliverable(i, env)).queue) < Work(cfg, w.queue)
  {
    var step := Deliverable(i, env);
    StepKeepsQueue(cfg, w, step);
    var w' := Next(cfg, w, step);
    WorkBound(cfg, w', |w'.queue|);
    assert w'.queue[..|w'.queue|] == w'.queue;
    assert MsgOk(cfg, w, w.queue[i]);
    WorkWithout(cfg, w.queue, i);
    SuccessorWork(cfg, w.(queue := Without(w.queue, i)), w.queue[i], env);
  }

  lemma SuccessorWork(cfg: Config, w: World, m: Msg, env: Env)
    requires MsgOk(cfg, w, m) && m.eta <= w.now
    ensures Work(cfg, Dispatch(cfg, w, m, env).queue) < Work(cfg, w.queue) + Weight(cfg, m)
  {
    var q' := Dispatch(cfg, w, m, env).queue;
    hide Work;
    SuccessorOk(cfg, w, m, env);
    if |q'| > |w.queue| {
      assert q' == w.queue + [q'[|w.queue|]];
      WorkConcat(cfg, w.queue, [q'[|w.queue|]]);
      WorkOne(cfg, q'[|w.queue|]);
    }
  }

  /** How many dispatches a run makes. */
  ghost function Dispatches(cfg: Config, w: World, steps: seq<Step>): nat {
    if steps == [] then 0
    else
      var front, step := steps[..|steps| - 1], steps[|steps| - 1];
      Dispatches(cfg, w, front)
      + (if step.Deliverable? && Enabled(cfg, RunFrom(cfg, w, front), step) then 1 else 0)
  }

  /** Without new enqueues the queue drains: no run dispatches more often than its initial work. */
  lemma {:induction false} QueueDrains(cfg: Config, w: World, steps: seq<Step>)
    requires QueueOk(cfg, w)
    requires forall i :: 0 <= i < |steps| ==> steps[i].Deliverable? || steps[i].Pass?
    ensures var after := RunFrom(cfg, w, steps);
      && QueueOk(cfg, after)
      && Dispatches(cfg, w, steps) + Work(cfg, after.queue) <= Work(cfg, w.queue)
      && Dispatches(cfg, w, steps) <= Work(cfg, w.queue)
  {
    if steps == [] {
      WorkBound(cfg, w, |w.queue|);
      assert w.queue[..|w.queue|] == w.queue;
    } else {
      var front, step := steps[..|steps| - 1], steps[|steps| - 1];
      QueueDrains(cfg, w, front);
      var before := RunFrom(cfg, w, front);
      if Enabled(cfg, before, step) {
        StepKeepsQueue(cfg, before, step);
        if step.Deliverable? { DispatchUsesWork(cfg, before, step.index, step.env); }
      }
      var after := RunFrom(cfg, w, steps);
      WorkBound(cfg, after, |after.queue|);
      assert after.queue[..|after.queue|] == after.queue;
    }
  }

  // ---------- what a dispatch leaves behind ----------

  /** No due alert is dropped on the floor: a dispatch delivers it exactly when a channel took it, and
      otherwise fails it, or leaves its row as it was with a retry queued. */
  lemma DispatchSettlesOrRetries(cfg: Config, w: World, m: Msg, env: Env)
    requires m.alertId in w.alerts && !NotDue(w.alerts[m.alertId], w.now)
    requires w.alerts[m.alertId].status != Delivered
    ensures var before, w' := w.alerts[m.alertId], Dispatch(cfg, w, m, env);
      var after := w'.alerts[m.alertId];
      && (after.status == Delivered <==> env.owner && SendOk in env.sends)
      && (after.status == Delivered ==> after.deliveredAt == Some(w.now))
      && (after.status == Delivered || after.status == Failed ||
          (after == before && m.retries < cfg.maxRetries && |w'.queue| == |w.queue| + 1
           && w'.queue[|w.queue|].alertId == m.alertId && w'.queue[|w.queue|].retries == m.retries + 1))
  {
  }

  /** A transient failure without a success leaves every row alone and queues the message once more after the
      back-off of DelaysGrowToCap, until its retries are used up; then it fails the row and queues nothing. */
  lemma TransientRetries(cfg: Config, w: World, m: Msg, env: Env)
    requires m.alertId in w.alerts && w.alerts[m.alertId].status != Delivered && env.owner
    requires w.alerts[m.alertId].deliverAfter.Some? ==> w.alerts[m.alertId].deliverAfter.value <= w.now
    requires SendOk !in env.sends && SendTransient in env.sends
    ensures var w' := Dispatch(cfg, w, m, env);
      if m.retries < cfg.maxRetries then
        && w'.alerts == w.alerts
        && w'.queue == w.queue + [Msg(m.alertId, w.now + RetryDelay(cfg, m.retries) as real,
                                      m.retries + 1, m.reschedules, m.deliveries + 1)]
      else
        && w'.alerts == w.alerts[m.alertId := w.alerts[m.alertId].(status := Failed)]
        && w'.queue == w.queue
  {
  }

  /** A message that comes before its alert is due only puts itself back, to come at most a second after
      the due time, and with its retries counted afresh. */
  lemma NotDueWaits(cfg: Config, w: World, m: Msg, env: Env)
    requires m.alertId in w.alerts && w.alerts[m.alertId].deliverAfter.Some?
    requires w.alerts[m.alertId].deliverAfter.value > w.now
    ensures var w' := Dispatch(cfg, w, m, env); var due := w.alerts[m.alertId].deliverAfter.value;
      && w'.alerts == w.alerts && w'.log == w.log && |w'.queue| == |w.queue| + 1
      && w'.queue[..|w.queue|] == w.queue
      && var again := w'.queue[|w.queue|];
         again.alertId == m.alertId && due <= again.eta < due + 1.0
         && again.retries == 0 && again.reschedules == m.reschedules + 1 && again.deliveries == m.deliveries
  {
    CeilReaches(w.alerts[m.alertId].deliverAfter.value - w.now);
  }

  /** A due dispatch sends once per channel; on success it delivers and on final failure it fails the row,
      recording every send, and it queues nothing. */
  lemma DueSettles(cfg: Config, w: World, m: Msg, env: Env)
    requires m.alertId in w.alerts && w.alerts[m.alertId].status != Delivered
    requires w.alerts[m.alertId].deliverAfter.Some? ==> w.alerts[m.alertId].deliverAfter.value <= w.now
    ensures var a, n, w' := w.alerts[m.alertId], if env.owner then |env.sends| else 0, Dispatch(cfg, w, m, env);
      && |w'.log| == |w.log| + n && w.log == w'.log[..|w.log|]
      && (forall k :: |w.log| <= k < |w'.log| ==> w'.log[k] == Entry(m.alertId, w.now))
      && (env.owner && SendOk in env.sends ==>
            w'.queue == w.queue && w'.alerts == w.alerts[m.alertId :=
              Alert(Delivered, a.attempts + n, a.deliverAfter, a.firstSeen, Some(w.now))])
      && (!env.owner || (SendOk !in env.sends && SendTransient !in env.sends) ==>
            w'.queue == w.queue && w'.alerts == w.alerts[m.alertId :=
              Alert(Failed, a.attempts + n, a.deliverAfter, a.firstSeen, a.deliveredAt)])
  {
  }

  /** A delivered alert and a missing one are left alone: nothing is sent, queued or written. */
  lemma DoneIsLeftAlone(cfg: Config, w: World, m: Msg, env: Env)
    requires m.alertId in w.alerts ==>
      (w.alerts[m.alertId].status == Delivered
       && (w.alerts[m.alertId].deliverAfter.Some? ==> w.alerts[m.alertId].deliverAfter.value <= w.now))
    ensures Dispatch(cfg, w, m, env) == w
  {
    if m.alertId in w.alerts {
      assert w.alerts[m.alertId := w.alerts[m.alertId]] == w.alerts;
      assert w.log + Repeat(Entry(m.alertId, w.now), 0) == w.log;
    }
  }

  /** A failed row is not final: it changes status exactly when a dispatch of a message still queued for it
      finds it due, its owner there and a channel that accepts, and then it is delivered after all. */
  lemma FailedRevivesExactly(cfg: Config, w: World, step: Step, id: nat)
    requires Enabled(cfg, w, step) && id in w.alerts && w.alerts[id].status == Failed
    ensures id in Next(cfg, w, step).alerts
    ensures var after := Next(cfg, w, step).alerts[id];
      && (after.status != Failed <==>
            step.Deliverable? && w.queue[step.index].alertId == id && !NotDue(w.alerts[id], w.now)
            && step.env.owner && SendOk in step.env.sends)
      && (after.status != Failed ==> after.status == Delivered && after.deliveredAt == Some(w.now))
  {
    hide Reenqueued, Selection;
  }

  /** One alert, queued twice; the first dispatch is refused for good, the second is accepted. */
  function RefusedThenAccepted(): seq<Step> {
    [Insert(1, Alert(Pending, 0, None, 0.0, None)), Enqueue(1, 0.0), Enqueue(1, 0.0),
     Deliverable(0, Env(true, [SendPermanent])), Deliverable(0, Env(true, [SendOk]))]
  }

  /** A run reaches a failed alert with a message queued for it, and goes on to deliver it. */
  lemma FailedThenDelivered(cfg: Config)
    ensures var steps := RefusedThenAccepted();
      var failed, after := RunFrom(cfg, EMPTY, steps[..4]), RunFrom(cfg, EMPTY, steps);
      && 1 in failed.alerts && failed.alerts[1].status == Failed && |failed.queue| == 1 && failed.queue[0].alertId == 1
      && 1 in after.alerts && after.alerts[1].status == Delivered
  {
    hide Next, Enabled;
    var steps := RefusedThenAccepted();
    QueuedTwice(cfg);
    var w := QueuedWorld();
    RefusedStep(cfg, w);
    RunNext(cfg, steps, 3);
    AcceptedStep(cfg, Next(cfg, w, steps[3]));
    RunNext(cfg, steps, 4);
    assert steps[..5] == steps;
  }

  function QueuedWorld(): World {
    World(0.0, map[1 := Alert(Pending, 0, None, 0.0, None)], [Fresh(1, 0.0), Fresh(1, 0.0)], [])
  }

  lemma QueuedTwice(cfg: Config)
    ensures RunFrom(cfg, EMPTY, RefusedThenAccepted()[..3]) == QueuedWorld()
  {
    var steps := RefusedThenAccepted();
    assert steps[..0] == [];
    RunNext(cfg, steps, 0);
    RunNext(cfg, steps, 1);
    RunNext(cfg, steps, 2);
  }

  lemma RefusedStep(cfg: Config, w: World)
    requires w == QueuedWorld()
    ensures var step := Deliverable(0, Env(true, [SendPermanent]));
      Enabled(cfg, w, step) &&
      var w' := Next(cfg, w, step);
      && w'.now == 0.0 && w'.queue == [Fresh(1, 0.0)]
      && 1 in w'.alerts && w'.alerts[1] == Alert(Failed, 1, None, 0.0, None)
  {
    assert Without(w.queue, 0) == [Fresh(1, 0.0)];
  }

  lemma AcceptedStep(cfg: Config, w: World)
    requires w.now == 0.0 && w.queue == [Fresh(1, 0.0)]
    requires 1 in w.alerts && w.alerts[1] == Alert(Failed, 1, None, 0.0, None)
    ensures var step := Deliverable(0, Env(true, [SendOk]));
      Enabled(cfg, w, step) && 1 in Next(cfg, w, step).alerts && Next(cfg, w, step).alerts[1].status == Delivered
  {
    FailedRevivesExactly(cfg, w, Deliverable(0, Env(true, [SendOk])), 1);
  }

  lemma RunNext(cfg: Config, steps: seq<Step>, k: nat)
    requires k < |steps|
    ensures RunFrom(cfg, EMPTY, steps[..k + 1]) ==
      var before := RunFrom(cfg, EMPTY, steps[..k]);
      if Enabled(cfg, before, steps[k]) then Next(cfg, before, steps[k]) else before
  {
    assert steps[..k + 1][..k] == steps[..k];
  }

  function SendsOf(log: seq<Entry>, id: nat): nat {
    if log == [] then 0 else SendsOf(log[..|log| - 1], id) + (if log[|log| - 1].alertId == id then 1 else 0)
  }

  lemma {:induction false} SendsRepeated(log: seq<Entry>, e: Entry, n: nat, id: nat)
    ensures SendsOf(log + Repeat(e, n), id) == SendsOf(log, id) + (if e.alertId == id then n else 0)
  {
    if n == 0 {
      assert log + Repeat(e, 0) == log;
    } else {
      SendsRepeated(log, e, n - 1, id);
      var all := log + Repeat(e, n);
      assert all[..|all| - 1] == log + Repeat(e, n - 1);
    }
  }

  /** An alert has made at least the attempts it records, and is delivered only by one made at that time. */
  ghost predicate RowBacked(w: World, id: nat)
    requires id in w.alerts
  {
    var a := w.alerts[id];
    && a.attempts <= SendsOf(w.log, id)
    && (a.status == Delivered ==> a.deliveredAt.Some? && Entry(id, a.deliveredAt.value) in w.log)
    && (a.deliveredAt.Some? <==> a.status == Delivered)
  }

  lemma DispatchBacked(cfg: Config, w: World, m: Msg, env: Env, id: nat)
    requires id in w.alerts && RowBacked(w, id)
    ensures id in Dispatch(cfg, w, m, env).alerts && RowBacked(Dispatch(cfg, w, m, env), id)
  {
    if m.alertId in w.alerts && !NotDue(w.alerts[m.alertId], w.now) {
      var e, n := Entry(m.alertId, w.now), SendCount(w.alerts[m.alertId], env);
      SendsRepeated(w.log, e, n, id);
      assert n > 0 ==> Repeat(e, n)[0] == e;
    }
  }

  ghost predicate AllBacked(w: World) { forall id :: id in w.alerts ==> RowBacked(w, id) }

  /** In every run the recorded attempts never exceed the sends made, and a delivered alert was sent. */
  lemma {:induction false} RecordsBacked(cfg: Config, steps: seq<Step>)
    ensures AllBacked(RunFrom(cfg, EMPTY, steps))
  {
    hide RowBacked, Dispatch, Selection;
    if steps != [] {
      var front, step := steps[..|steps| - 1], steps[|steps| - 1];
      RecordsBacked(cfg, front);
      var w := RunFrom(cfg, EMPTY, front);
      if Enabled(cfg, w, step) {
        forall id | id in Next(cfg, w, step).alerts ensures RowBacked(Next(cfg, w, step), id) {
          StepBacked(cfg, w, step, id);
        }
      }
    }
  }

  lemma StepBacked(cfg: Config, w: World, step: Step, id: nat)
    requires Enabled(cfg, w, step) && id in Next(cfg, w, step).alerts
    requires id in w.alerts ==> RowBacked(w, id)
    ensures RowBacked(Next(cfg, w, step), id)
  {
    match step
    case Pass(_) =>
    case Deliverable(i, env) =>
      assert id in w.alerts by { SameRows(cfg, w, step, id); }
      DispatchBacked(cfg, w.(queue := Without(w.queue, i)), w.queue[i], env, id);
    case Sweep(_, _) =>
    case Insert(_, _) =>
    case Enqueue(_, _) =>
  }

  lemma SameRows(cfg: Config, w: World, step: Step, id: nat)
    requires Enabled(cfg, w, step) && step.Deliverable?
    ensures id in Next(cfg, w, step).alerts <==> id in w.alerts
  {
  }

  // ---------- attempts, and what the resweep picks up ----------

  /** Sends are added to delivery_attempts except when the dispatch ends in a transient failure: then
      the row is rolled back and they go unrecorded. */
  lemma AttemptsRecorded(cfg: Config, w: World, m: Msg, env: Env)
    requires m.alertId in w.alerts && !NotDue(w.alerts[m.alertId], w.now)
    requires SendCount(w.alerts[m.alertId], env) > 0
    ensures var before, w' := w.alerts[m.alertId], Dispatch(cfg, w, m, env);
      w'.alerts[m.alertId].attempts == before.attempts + SendCount(before, env) <==>
      SendOk in env.sends || SendTransient !in env.sends
  {
  }

  /** Pending, older than the grace, and not waiting for a later time. */
  ghost predicate Overdue(cfg: Config, w: World, id: nat) {
    && id in w.alerts && w.alerts[id].status == Pending && w.alerts[id].firstSeen < w.now - cfg.grace
    && (w.alerts[id].deliverAfter.None? || w.alerts[id].deliverAfter.value <= w.now)
  }

  /** A resweep whose batch was not full queues a fresh message for exactly the overdue alerts that the
      broker accepts, behind what was queued, and touches nothing else. */
  lemma {:induction false} ResweepCovers(cfg: Config, w: World, rows: seq<nat>, accepts: nat -> bool, id: nat)
    requires Selection(cfg, w, rows) && |rows| < cfg.batch
    ensures var w' := Resweep(w, rows, accepts);
      && |w.queue| <= |w'.queue| && w'.queue[..|w.queue|] == w.queue
      && w'.alerts == w.alerts && w'.log == w.log && w'.now == w.now
      && (Msg(id, w.now, 0, 0, 0) in w'.queue[|w.queue|..] <==> Overdue(cfg, w, id) && accepts(id))
      && forall m :: m in w'.queue[|w.queue|..] ==> m == Msg(m.alertId, w.now, 0, 0, 0)
  {
    var added := Reenqueued(rows, accepts, w.now);
    assert Resweep(w, rows, accepts).queue[|w.queue|..] == added;
    forall m | m in added ensures m.alertId in rows && accepts(m.alertId) && m == Fresh(m.alertId, w.now) {
      FreshOnly(rows, accepts, w.now, m);
    }
    assert Overdue(cfg, w, id) <==> Stale(cfg, w, id);
    if Stale(cfg, w, id) && accepts(id) {
      assert id in rows;
      AcceptedQueued(rows, accepts, w.now, id);
    }
  }

  lemma {:induction false} AcceptedQueued(rows: seq<nat>, accepts: nat -> bool, eta: real, id: nat)
    requires id in rows && accepts(id)
    ensures Fresh(id, eta) in Reenqueued(rows, accepts, eta)
  {
    var front, last := rows[..|rows| - 1], rows[|rows| - 1];
    assert rows == front + [last];
    if id in front { AcceptedQueued(front, accepts, eta, id); }
  }
}
