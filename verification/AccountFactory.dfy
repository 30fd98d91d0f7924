/** The account factory: provisioning with paired resources, the lifecycle graph, the budget, unique
    proxies, and the all-or-nothing tick. Providers are the oracle `Env`. */
module AccountFactory {
  import opened Wrappers

  datatype Lifecycle = Purchased | Registered | Probation | Promoted | Failed | Banned

  predicate Allowed(from: Lifecycle, to: Lifecycle) {
    match from
    case Purchased => to == Registered || to == Failed || to == Banned
    case Registered => to == Probation || to == Failed || to == Banned
    case Probation => to == Promoted || to == Failed || to == Banned
    case Promoted => false
    case Failed => false
    case Banned => false
  }

  /** An account row; `history` records the states it went through. */
  datatype Row = Row(
    state: Lifecycle, cost: real, proxy: Option<string>, lease: Option<string>, session: Option<string>,
    tgUser: Option<int>, probationUntil: Option<real>, history: seq<Lifecycle>)

  datatype Settings = Settings(
    enabled: bool, price: real, proxyPrice: real, budget: real, probationDays: real,
    pool: seq<string>, dynamic: bool)

  // ---------- provisioning one number ----------

  datatype Lease = Lease(id: string, uri: string)

  datatype Buy = Bought | Unavailable | BuyFails

  datatype Register = Registers(session: string, tgUser: int) | CodeTimeout | RegisterFails

  /** What the providers do during one provisioning. */
  datatype Env = Env(
    buy: Buy, allocate: Option<Lease>, register: Register,
    cancelRaises: bool, finishRaises: bool, closeRaises: bool)

  datatype Provisioned = Provision(session: string, tgUser: int, lease: Option<Lease>) | NoNumber | NoCode | Escaped

  /** Which provider calls were made. */
  datatype Calls = Calls(bought: bool, leased: bool, finish: bool, cancel: bool, release: bool, close: bool)

  /** _provision: the outcome it hands back. */
  function ProvisionResult(dynamic: bool, env: Env): Provisioned {
    if env.closeRaises then Escaped
    else
      match env.buy
      case Unavailable => NoNumber
      case BuyFails => Escaped
      case Bought =>
        if dynamic && env.allocate.None? then Escaped
        else
          match env.register
          case Registers(s, u) =>
            if env.finishRaises then Escaped else Provision(s, u, if dynamic then env.allocate else None)
          case CodeTimeout => if env.cancelRaises then Escaped else NoCode
          case RegisterFails => Escaped
  }

  method ProvisionNumber(dynamic: bool, env: Env) returns (r: Provisioned, calls: Calls)
    ensures r == ProvisionResult(dynamic, env)
    ensures calls.close
    ensures calls.bought <==> env.buy == Bought
    ensures calls.leased <==> calls.bought && dynamic && env.allocate.Some?
    // A bought number is finished or cancelled, never both and never neither.
    ensures calls.bought <==> calls.finish != calls.cancel
    ensures calls.finish ==> env.register.Registers?
    // A lease is handed back or its release is attempted, never both ...
    ensures !(r.Provision? && calls.release)
    ensures r.Provision? ==> (r.lease.Some? <==> calls.leased)
    // ... and is lost exactly when a clean-up call before its release or return raises.
    ensures calls.leased && !r.Provision? && !calls.release <==>
      calls.leased && (if env.register.Registers? then env.finishRaises || env.closeRaises else env.cancelRaises)
  {
    r, calls := ProvisionBody(dynamic, env);
    // finally: aclose
    calls := calls.(close := true);
    if env.closeRaises { r := Escaped; }
  }

  /** The try block, its two except handlers included. */
  method ProvisionBody(dynamic: bool, env: Env) returns (r: Provisioned, calls: Calls)
    ensures r == ProvisionResult(dynamic, env.(closeRaises := false))
    ensures calls.bought <==> env.buy == Bought
    ensures calls.leased <==> calls.bought && dynamic && env.allocate.Some?
    ensures calls.bought <==> calls.finish != calls.cancel
    ensures calls.finish ==> env.register.Registers?
    ensures !(r.Provision? && calls.release)
    ensures r.Provision? ==> (r.lease.Some? <==> calls.leased)
    ensures calls.release <==> calls.leased && !env.register.Registers? && !env.cancelRaises
    ensures calls.leased && env.register.Registers? ==> (r.Provision? <==> !env.finishRaises)
  {
    calls := Calls(false, false, false, false, false, false);
    match env.buy {
      case Unavailable => return NoNumber, calls;
      case BuyFails => return Escaped, calls;
      case Bought => calls := calls.(bought := true);
    }
    var lease: Option<Lease> := None;
    if dynamic {
      if env.allocate.None? {
        calls := calls.(cancel := true);
        return Escaped, calls;
      }
      lease, calls := env.allocate, calls.(leased := true);
    }
    if !env.register.Registers? {
      calls := calls.(cancel := true);
      if env.cancelRaises { return Escaped, calls; }
      if lease.Some? { calls := calls.(release := true); }
      return if env.register.CodeTimeout? then NoCode else Escaped, calls;
    }
    calls := calls.(finish := true);
    if env.finishRaises { return Escaped, calls; }
    return Provision(env.register.session, env.register.tgUser, lease), calls;
  }

  // ---------- the store ----------

  function Created(cost: real, proxy: Option<string>, lease: Option<string>): Row {
    Row(Purchased, cost, proxy, lease, None, None, None, [Purchased])
  }

  function Kept<T>(given: Option<T>, stored: Option<T>): Option<T> { if given.Some? then given else stored }

  function Moved(r: Row, to: Lifecycle, session: Option<string>, tgUser: Option<int>, until: Option<real>): Row {
    r.(state := to, history := r.history + [to], session := Kept(session, r.session),
       tgUser := Kept(tgUser, r.tgUser), probationUntil := Kept(until, r.probationUntil))
  }

  function TotalSpent(rows: seq<Row>): real {
    if rows == [] then 0.0 else TotalSpent(rows[..|rows| - 1]) + rows[|rows| - 1].cost
  }

  predicate NonTerminal(s: Lifecycle) { s == Purchased || s == Registered || s == Probation }

  function UsedProxies(rows: seq<Row>): set<string> {
    set i | 0 <= i < |rows| && NonTerminal(rows[i].state) && rows[i].proxy.Some? :: rows[i].proxy.value
  }

  // ---------- decisions ----------

  predicate CanAfford(spent: real, price: real, budget: real) { spent + price <= budget }

  predicate IsPromotable(until: Option<real>, now: real) { until.Some? && now >= until.value }

  /** The first proxy of the pool that is not in use. */
  function AssignProxy(pool: seq<string>, used: set<string>): (r: Option<string>)
    ensures r.None? <==> forall p :: p in pool ==> p in used
    ensures r.Some? ==> exists k ::
      0 <= k < |pool| && pool[k] == r.value && r.value !in used && forall j :: 0 <= j < k ==> pool[j] in used
  {
    if pool == [] then None
    else if pool[0] !in used then Some(pool[0])
    else
      var r := AssignProxy(pool[1..], used);
      assert pool == [pool[0]] + pool[1..];
      assert forall k :: 0 <= k < |pool| - 1 ==> pool[1..][k] == pool[k + 1];
      r
  }

  // ---------- one tick ----------

  datatype TickEnv = TickEnv(
    now: real, healthy: int, target: int, prov: Env, probe: nat -> bool, upsertRaises: nat -> bool)

  function ProxyCost(st: Settings, proxy: Option<string>): real {
    if proxy.Some? then st.proxyPrice else 0.0
  }

  function Timeouted(st: Settings, proxy: Option<string>): Row {
    Moved(Created(st.price, proxy, None), Failed, None, None, None)
  }

  function OnProbation(st: Settings, proxy: Option<string>, lease: Option<string>, session: string, tgUser: int, now: real): Row {
    Moved(Moved(Created(st.price + ProxyCost(st, proxy), proxy, lease), Registered, Some(session), Some(tgUser), None),
          Probation, None, None, Some(now + st.probationDays * 86400.0))
  }

  /** The rows the buy phase adds; None is an escaping exception. */
  function BuyRows(st: Settings, rows: seq<Row>, e: TickEnv): Option<seq<Row>> {
    if e.healthy >= e.target || !CanAfford(TotalSpent(rows), st.price, st.budget) then Some([])
    else
      var chosen := if st.dynamic then None else AssignProxy(st.pool, UsedProxies(rows));
      if !st.dynamic && st.pool != [] && chosen.None? then Some([])
      else
        match ProvisionResult(st.dynamic, e.prov)
        case NoNumber => Some([])
        case NoCode => Some([Timeouted(st, chosen)])
        case Escaped => None
        case Provision(s, u, lease) =>
          var proxy := if lease.Some? then Some(lease.value.uri) else chosen;
          var leaseId := if lease.Some? then Some(lease.value.id) else None;
          Some([OnProbation(st, proxy, leaseId, s, u, e.now)])
  }

  predicate Healthy(r: Row, id: nat, e: TickEnv) { r.session.Some? && r.tgUser.Some? && e.probe(id) }

  /** The fate of row `id` in the promote phase; None is a full live pool raising. */
  function PromoteRow(r: Row, id: nat, e: TickEnv): Option<Row> {
    if r.state != Probation || !IsPromotable(r.probationUntil, e.now) then Some(r)
    else if !Healthy(r, id, e) then Some(Moved(r, Failed, None, None, None))
    else if e.upsertRaises(id) then None
    else Some(Moved(r, Promoted, None, None, None))
  }

  function PromoteRows(rows: seq<Row>, e: TickEnv): Option<seq<Row>> {
    if rows == [] then Some([])
    else
      var k := |rows| - 1;
      var front := PromoteRows(rows[..k], e);
      var last := PromoteRow(rows[k], k, e);
      if front.Some? && last.Some? then Some(front.value + [last.value]) else None
  }

  /** One tick: buy, promote, commit; any escaping exception rolls everything back. */
  function Tick(st: Settings, rows: seq<Row>, e: TickEnv): seq<Row> {
    if !st.enabled then rows
    else
      match BuyRows(st, rows, e)
      case None => rows
      case Some(added) =>
        match PromoteRows(rows + added, e)
        case None => rows
        case Some(after) => after
  }

  // ---------- the tick over its session ----------

  class Session {
    var rows: seq<Row>

    method CreatePurchased(cost: real, proxy: Option<string>, lease: Option<string>) returns (id: nat)
      modifies this
      ensures id == |old(rows)| && rows == old(rows) + [Created(cost, proxy, lease)]
    {
      id := |rows|;
      rows := rows + [Created(cost, proxy, lease)];
    }

    /** False stands for IllegalFactoryTransitionError. */
    method Transition(id: nat, to: Lifecycle, session: Option<string>, tgUser: Option<int>, until: Option<real>)
      returns (ok: bool)
      requires id < |rows|
      modifies this
      ensures ok <==> Allowed(old(rows)[id].state, to)
      ensures rows == if ok then old(rows)[id := Moved(old(rows)[id], to, session, tgUser, until)] else old(rows)
    {
      ok := Allowed(rows[id].state, to);
      if ok { rows := rows[id := Moved(rows[id], to, session, tgUser, until)]; }
    }

    method CollectUsedProxies() returns (used: set<string>)
      ensures used == UsedProxies(rows)
    {
      used := {};
      for i := 0 to |rows|
        invariant used == UsedProxies(rows[..i])
      {
        if NonTerminal(rows[i].state) && rows[i].proxy.Some? { used := used + {rows[i].proxy.value}; }
        UsedSnoc(rows[..i], rows[i]);
        assert rows[..i + 1] == rows[..i] + [rows[i]];
      }
      assert rows[..|rows|] == rows;
    }

    method BuyPhase(st: Settings, e: TickEnv) returns (raised: bool)
      modifies this
      ensures raised <==> BuyRows(st, old(rows), e).None?
      ensures !raised ==> rows == old(rows) + BuyRows(st, old(rows), e).value
    {
      hide UsedProxies, TotalSpent, AssignProxy;
      if e.healthy >= e.target || !CanAfford(TotalSpent(rows), st.price, st.budget) { return false; }
      var chosen: Option<string> := None;
      if !st.dynamic {
        var used := CollectUsedProxies();
        chosen := AssignProxy(st.pool, used);
        if st.pool != [] && chosen.None? { return false; }
      }
      var r, calls := ProvisionNumber(st.dynamic, e.prov);
      match r {
        case NoNumber => return false;
        case Escaped => return true;
        case NoCode =>
          var id := CreatePurchased(st.price, chosen, None);
          var ok := Transition(id, Failed, None, None, None);
          return false;
        case Provision(s, u, lease) =>
          var proxy := if lease.Some? then Some(lease.value.uri) else chosen;
          var leaseId := if lease.Some? then Some(lease.value.id) else None;
          var id := CreatePurchased(st.price + ProxyCost(st, proxy), proxy, leaseId);
          var ok := Transition(id, Registered, Some(s), Some(u), None);
          ok := Transition(id, Probation, None, None, Some(e.now + st.probationDays * 86400.0));
          return false;
      }
    }

    method PromotePhase(e: TickEnv) returns (raised: bool)
      modifies this
      ensures raised <==> PromoteRows(old(rows), e).None?
      ensures !raised ==> rows == PromoteRows(old(rows), e).value
    {
      assert PromoteRows([], e) == Some([]);
      hide PromoteRows, Healthy, IsPromotable;
      ghost var before := rows;
      for i := 0 to |rows|
        invariant |rows| == |before| && forall k :: i <= k < |before| ==> rows[k] == before[k]
        invariant PromoteRows(before[..i], e).Some? && rows[..i] == PromoteRows(before[..i], e).value
      {
        PromoteNext(before, i, e);
        var record := rows[i];
        if record.state == Probation && IsPromotable(record.probationUntil, e.now) {
          if !Healthy(record, i, e) {
            var ok := Transition(i, Failed, None, None, None);
          } else {
            if e.upsertRaises(i) {
              PromoteRaises(before, i, |before|, e);
              assert before[..|before|] == before;
              return true;
            }
            var ok := Transition(i, Promoted, None, None, None);
          }
        }
        assert rows[..i + 1] == rows[..i] + [rows[i]];
      }
      assert before[..|before|] == before && rows[..|before|] == rows;
      return false;
    }

    /** run_factory_tick: the session commits on a clean exit and rolls back on an exception. */
    method RunTick(st: Settings, e: TickEnv)
      modifies this
      ensures rows == Tick(st, old(rows), e)
    {
      if !st.enabled { return; }
      var committed := rows;
      var raised := BuyPhase(st, e);
      if !raised { raised := PromotePhase(e); }
      if raised { rows := committed; }
    }
  }

  lemma UsedSnoc(rows: seq<Row>, r: Row)
    ensures UsedProxies(rows + [r]) ==
      UsedProxies(rows) + (if NonTerminal(r.state) && r.proxy.Some? then {r.proxy.value} else {})
  {
    var all := rows + [r];
    forall p | p in UsedProxies(rows) ensures p in UsedProxies(all) {
      var i :| 0 <= i < |rows| && NonTerminal(rows[i].state) && rows[i].proxy == Some(p);
      assert all[i] == rows[i];
    }
    if NonTerminal(r.state) && r.proxy.Some? { assert all[|rows|] == r; }
  }

  lemma PromoteNext(rows: seq<Row>, i: nat, e: TickEnv)
    requires i < |rows|
    ensures PromoteRows(rows[..i + 1], e) ==
      var front, last := PromoteRows(rows[..i], e), PromoteRow(rows[i], i, e);
      if front.Some? && last.Some? then Some(front.value + [last.value]) else None
  {
    assert rows[..i + 1][..i] == rows[..i];
  }

  lemma {:induction false} PromoteRaises(rows: seq<Row>, i: nat, n: nat, e: TickEnv)
    requires i < n <= |rows| && PromoteRow(rows[i], i, e).None?
    ensures PromoteRows(rows[..n], e).None?
  {
    PromoteNext(rows, n - 1, e);
    if i < n - 1 { PromoteRaises(rows, i, n - 1, e); }
  }

  // ---------- exactly what a tick buys, and when it commits ----------

  /** A proxy of the pool that no row in purchased, registered or probation holds. */
  ghost predicate FreeProxy(pool: seq<string>, rows: seq<Row>, p: string) {
    p in pool && forall i :: 0 <= i < |rows| && rows[i].proxy == Some(p) ==>
      rows[i].state != Purchased && rows[i].state != Registered && rows[i].state != Probation
  }

  /** The pool is under target, the number is affordable, and a proxy is to be had if one is needed. */
  ghost predicate Buys(st: Settings, rows: seq<Row>, e: TickEnv) {
    && e.healthy < e.target && TotalSpent(rows) + st.price <= st.budget
    && (st.dynamic || st.pool == [] || exists p :: FreeProxy(st.pool, rows, p))
  }

  /** Provisioning ends in an error other than "no number" and "no code". */
  predicate Escapes(dynamic: bool, p: Env) {
    || p.closeRaises || p.buy == BuyFails
    || (p.buy == Bought &&
         (|| (dynamic && p.allocate.None?) || p.register == RegisterFails
          || (p.register == CodeTimeout && p.cancelRaises) || (p.register.Registers? && p.finishRaises)))
  }

  /** The buy phase does nothing, raises, records a number whose code never came, or puts an account on
      probation, and each exactly when it should. */
  lemma BuysExactly(st: Settings, rows: seq<Row>, e: TickEnv) returns (chosen: Option<string>)
    ensures chosen.Some? ==> !st.dynamic && FreeProxy(st.pool, rows, chosen.value)
    ensures !st.dynamic && chosen.None? ==> forall p :: !FreeProxy(st.pool, rows, p)
    ensures BuyRows(st, rows, e) ==
      if !Buys(st, rows, e) then Some([])
      else if Escapes(st.dynamic, e.prov) then None
      else if e.prov.buy == Unavailable then Some([])
      else
        match e.prov.register
        case CodeTimeout =>
          Some([Row(Failed, st.price, chosen, None, None, None, None, [Purchased, Failed])])
        case Registers(s, u) =>
          var proxy := if st.dynamic then Some(e.prov.allocate.value.uri) else chosen;
          Some([Row(Probation, st.price + (if proxy.Some? then st.proxyPrice else 0.0), proxy,
                    if st.dynamic then Some(e.prov.allocate.value.id) else None, Some(s), Some(u),
                    Some(e.now + st.probationDays * 86400.0), [Purchased, Registered, Probation])])
        case RegisterFails => None
  {
    var used := UsedProxies(rows);
    chosen := if st.dynamic then None else AssignProxy(st.pool, used);
    forall p ensures FreeProxy(st.pool, rows, p) <==> p in st.pool && p !in used { FreeIsUnused(st.pool, rows, p); }
    hide UsedProxies, FreeProxy, TotalSpent, AssignProxy;
    assert [Purchased] + [Failed] == [Purchased, Failed];
    assert [Purchased] + [Registered] + [Probation] == [Purchased, Registered, Probation];
    if !st.dynamic && st.pool != [] && chosen.None? { assert st.pool[0] in st.pool; }
  }

  /** The proxies in use are those of purchased, registered and probation rows. */
  lemma UsedExactly(rows: seq<Row>, p: string)
    ensures p in UsedProxies(rows) <==>
      exists i :: 0 <= i < |rows| && rows[i].proxy == Some(p) && rows[i].state in {Purchased, Registered, Probation}
  {
  }

  lemma FreeIsUnused(pool: seq<string>, rows: seq<Row>, p: string)
    ensures FreeProxy(pool, rows, p) <==> p in pool && p !in UsedProxies(rows)
  {
  }

  /** Promoting row i makes the live pool raise. */
  predicate RaisesAt(rows: seq<Row>, e: TickEnv, i: nat) {
    && i < |rows| && rows[i].state == Probation
    && rows[i].probationUntil.Some? && rows[i].probationUntil.value <= e.now
    && rows[i].session.Some? && rows[i].tgUser.Some? && e.probe(i) && e.upsertRaises(i)
  }

  lemma {:induction false} RaisesExactly(rows: seq<Row>, e: TickEnv)
    ensures PromoteRows(rows, e).None? <==> exists i :: RaisesAt(rows, e, i)
  {
    if rows != [] {
      var k := |rows| - 1;
      RaisesExactly(rows[..k], e);
      assert PromoteRow(rows[k], k, e).None? <==> RaisesAt(rows, e, k);
      forall i: nat | i < k ensures RaisesAt(rows, e, i) <==> RaisesAt(rows[..k], e, i) {
      }
    }
  }

  /** A tick that is off, escapes in the buy phase or raises for some row leaves everything as it was; any
      other keeps what it bought. */
  lemma CommitsExactly(st: Settings, rows: seq<Row>, e: TickEnv)
    ensures var bought := BuyRows(st, rows, e);
      if !st.enabled || bought.None? || exists i :: RaisesAt(rows + bought.value, e, i) then
        Tick(st, rows, e) == rows
      else
        |Tick(st, rows, e)| == |rows + bought.value|
  {
    hide BuyRows, RaisesAt;
    if BuyRows(st, rows, e).Some? {
      var all := rows + BuyRows(st, rows, e).value;
      RaisesExactly(all, e);
      if PromoteRows(all, e).Some? { PromoteLength(all, e); }
    }
  }

  /** The graph has these nine moves and no other. */
  lemma GraphExactly(from: Lifecycle, to: Lifecycle)
    ensures Allowed(from, to) <==> (from, to) in {
      (Purchased, Registered), (Purchased, Failed), (Purchased, Banned),
      (Registered, Probation), (Registered, Failed), (Registered, Banned),
      (Probation, Promoted), (Probation, Failed), (Probation, Banned)}
  {
  }

  // ---------- runs of ticks: the lifecycle ----------

  datatype Beat = Beat(settings: Settings, env: TickEnv)

  function RunTicks(beats: seq<Beat>): seq<Row> {
    if beats == [] then []
    else
      var last := beats[|beats| - 1];
      Tick(last.settings, RunTicks(beats[..|beats| - 1]), last.env)
  }

  /** A path in the transition graph that starts at a purchase and ends in the row's state. */
  ghost predicate IsPath(h: seq<Lifecycle>, end: Lifecycle) {
    && h != [] && h[0] == Purchased && h[|h| - 1] == end
    && forall k :: 0 < k < |h| ==> Allowed(h[k - 1], h[k])
  }

  ghost predicate RowOk(r: Row) {
    && IsPath(r.history, r.state)
    && (r.state == Probation || r.state == Promoted || r.state == Failed)
    && (r.state != Failed ==> r.session.Some? && r.tgUser.Some? && r.probationUntil.Some?)
  }

  ghost predicate AllOk(rows: seq<Row>) { forall i :: 0 <= i < |rows| ==> RowOk(rows[i]) }

  lemma PathGrows(h: seq<Lifecycle>, from: Lifecycle, to: Lifecycle)
    requires IsPath(h, from) && Allowed(from, to)
    ensures IsPath(h + [to], to)
  {
  }

  lemma BoughtRowsOk(st: Settings, rows: seq<Row>, e: TickEnv)
    requires BuyRows(st, rows, e).Some?
    ensures AllOk(BuyRows(st, rows, e).value)
  {
    hide TotalSpent, UsedProxies, AssignProxy;
    assert IsPath([Purchased], Purchased);
    PathGrows([Purchased], Purchased, Failed);
    PathGrows([Purchased], Purchased, Registered);
    PathGrows([Purchased] + [Registered], Registered, Probation);
  }

  lemma PromoteRowOk(r: Row, id: nat, e: TickEnv)
    requires RowOk(r) && PromoteRow(r, id, e).Some?
    ensures RowOk(PromoteRow(r, id, e).value)
  {
    hide IsPath;
    if r.state == Probation {
      PathGrows(r.history, Probation, Failed);
      PathGrows(r.history, Probation, Promoted);
    }
  }

  /** The promote phase works row by row. */
  lemma {:induction false} PromoteRowsAt(rows: seq<Row>, e: TickEnv, i: nat)
    requires PromoteRows(rows, e).Some? && i < |rows|
    ensures |PromoteRows(rows, e).value| == |rows|
    ensures PromoteRow(rows[i], i, e) == Some(PromoteRows(rows, e).value[i])
  {
    var k := |rows| - 1;
    PromoteLength(rows[..k], e);
    if i < k { PromoteRowsAt(rows[..k], e, i); }
  }

  lemma {:induction false} PromoteLength(rows: seq<Row>, e: TickEnv)
    requires PromoteRows(rows, e).Some?
    ensures |PromoteRows(rows, e).value| == |rows|
  {
    if rows != [] { PromoteLength(rows[..|rows| - 1], e); }
  }

  /** Every row after a tick is an unchanged old one, or a promote-phase result of an old or bought one. */
  lemma TickRow(st: Settings, rows: seq<Row>, e: TickEnv, i: nat)
    requires i < |Tick(st, rows, e)|
    ensures var after := Tick(st, rows, e);
      || after == rows
      || (BuyRows(st, rows, e).Some? &&
          var all := rows + BuyRows(st, rows, e).value;
          i < |all| == |after| && PromoteRow(all[i], i, e) == Some(after[i]))
  {
    if st.enabled && BuyRows(st, rows, e).Some? {
      var all := rows + BuyRows(st, rows, e).value;
      if PromoteRows(all, e).Some? {
        PromoteLength(all, e);
        PromoteRowsAt(all, e, i);
      }
    }
  }

  lemma TickKeepsOk(st: Settings, rows: seq<Row>, e: TickEnv)
    requires AllOk(rows)
    ensures AllOk(Tick(st, rows, e))
  {
    var after := Tick(st, rows, e);
    forall i | 0 <= i < |after| ensures RowOk(after[i]) {
      TickRow(st, rows, e, i);
      if after != rows {
        BoughtRowsOk(st, rows, e);
        PromoteRowOk((rows + BuyRows(st, rows, e).value)[i], i, e);
      }
    }
  }

  /** Over any run every row's history is a path in the graph, a promoted row has its session and
      Telegram id, and no row is ever banned. */
  lemma {:induction false} LifecycleRespected(beats: seq<Beat>)
    ensures AllOk(RunTicks(beats))
  {
    if beats != [] {
      LifecycleRespected(beats[..|beats| - 1]);
      var last := beats[|beats| - 1];
      TickKeepsOk(last.settings, RunTicks(beats[..|beats| - 1]), last.env);
    }
  }

  /** A row turns promoted only past its probation deadline and having passed the probe in that tick. */
  lemma PromotionEarned(st: Settings, rows: seq<Row>, e: TickEnv, i: nat)
    requires i < |Tick(st, rows, e)| && Tick(st, rows, e)[i].state == Promoted
    requires i < |rows| ==> rows[i].state != Promoted
    ensures var r := Tick(st, rows, e)[i];
      r.probationUntil.Some? && r.probationUntil.value <= e.now && e.probe(i) && r.session.Some? && r.tgUser.Some?
  {
    TickRow(st, rows, e, i);
    if Tick(st, rows, e) != rows {
      BoughtRowsOk(st, rows, e);
      var added := BuyRows(st, rows, e).value;
      if i >= |rows| { BoughtNotPromoted(st, rows, e, i - |rows|); }
    }
  }

  /** A tick that commits settles every probation row whose deadline has passed: promoted exactly when
      the probe of its session passes, failed otherwise, and it touches no other row. */
  lemma ProbationSettled(st: Settings, rows: seq<Row>, e: TickEnv, i: nat)
    requires st.enabled && BuyRows(st, rows, e).Some? && PromoteRows(rows + BuyRows(st, rows, e).value, e).Some?
    requires i < |rows|
    ensures i < |Tick(st, rows, e)|
    ensures var r, r' := rows[i], Tick(st, rows, e)[i];
      if r.state == Probation && r.probationUntil.Some? && r.probationUntil.value <= e.now then
        && r'.history == r.history + [r'.state]
        && (r'.state == Promoted || r'.state == Failed)
        && (r'.state == Promoted <==> r.session.Some? && r.tgUser.Some? && e.probe(i))
      else r' == r
  {
    var all := rows + BuyRows(st, rows, e).value;
    PromoteLength(all, e);
    PromoteRowsAt(all, e, i);
  }

  /** A row a tick adds is held on probation for the configured days from that tick, and with any days to
      hold it does not leave in the same tick. */
  lemma ProbationLasts(st: Settings, rows: seq<Row>, e: TickEnv, i: nat)
    requires |rows| <= i < |Tick(st, rows, e)|
    ensures var r := Tick(st, rows, e)[i];
      && (r.state == Probation || r.state == Promoted ==>
            r.probationUntil == Some(e.now + st.probationDays * 86400.0))
      && (st.probationDays > 0.0 ==> r.state != Promoted)
  {
    TickRow(st, rows, e, i);
    BoughtNotPromoted(st, rows, e, i - |rows|);
    hide UsedProxies, TotalSpent;
  }

  /** Row i was added by the tick of beat b. */
  ghost predicate BoughtAt(beats: seq<Beat>, i: nat, b: nat) {
    b < |beats| && |RunTicks(beats[..b])| <= i < |RunTicks(beats[..b + 1])|
  }

  /** Row i turned promoted in the tick of beat c. */
  ghost predicate PromotedAt(beats: seq<Beat>, i: nat, c: nat) {
    && c < |beats| && i < |RunTicks(beats[..c + 1])| && RunTicks(beats[..c + 1])[i].state == Promoted
    && (i < |RunTicks(beats[..c])| ==> RunTicks(beats[..c])[i].state != Promoted)
  }

  /** Over any run, whatever the settings of each tick, a row was bought by one tick, and a promoted row was
      promoted by a tick at least the probation days of its purchase later, having passed the probe then. */
  lemma {:induction false} PromotedAfterProbation(beats: seq<Beat>, i: nat) returns (b: nat, c: nat)
    requires i < |RunTicks(beats)|
    ensures BoughtAt(beats, i, b)
    ensures var r := RunTicks(beats)[i]; var deadline := beats[b].env.now + beats[b].settings.probationDays * 86400.0;
      && (r.state == Probation || r.state == Promoted ==> r.probationUntil == Some(deadline))
      && (r.state == Promoted ==>
            b <= c && PromotedAt(beats, i, c) && deadline <= beats[c].env.now && beats[c].env.probe(i))
  {
    hide Tick;
    var front, last := beats[..|beats| - 1], beats[|beats| - 1];
    var rows := RunTicks(front);
    assert beats[..|front| + 1] == beats;
    if i < |rows| {
      b, c := PromotedAfterProbation(front, i);
      assert beats[..b] == front[..b] && beats[..b + 1] == front[..b + 1];
      OldRow(last.settings, rows, last.env, i);
      if rows[i].state == Promoted {
        assert beats[..c] == front[..c] && beats[..c + 1] == front[..c + 1];
      } else {
        c := |front|;
        if RunTicks(beats)[i].state == Promoted { PromotionEarned(last.settings, rows, last.env, i); }
      }
    } else {
      b, c := |front|, |front|;
      ProbationLasts(last.settings, rows, last.env, i);
      if RunTicks(beats)[i].state == Promoted { PromotionEarned(last.settings, rows, last.env, i); }
    }
  }

  /** A tick never drops a row, moves a deadline or brings a finished row back. */
  lemma OldRow(st: Settings, rows: seq<Row>, e: TickEnv, i: nat)
    requires i < |rows|
    ensures i < |Tick(st, rows, e)|
    ensures var r, r' := rows[i], Tick(st, rows, e)[i];
      r'.probationUntil == r.probationUntil && (r.state != Probation ==> r' == r)
  {
    hide BuyRows;
    if st.enabled && BuyRows(st, rows, e).Some? {
      var all := rows + BuyRows(st, rows, e).value;
      if PromoteRows(all, e).Some? {
        PromoteLength(all, e);
        PromoteRowsAt(all, e, i);
      }
    }
  }

  lemma BoughtNotPromoted(st: Settings, rows: seq<Row>, e: TickEnv, k: nat)
    requires BuyRows(st, rows, e).Some? && k < |BuyRows(st, rows, e).value|
    ensures |BuyRows(st, rows, e).value| == 1
    ensures BuyRows(st, rows, e).value[k].state == Probation || BuyRows(st, rows, e).value[k].state == Failed
  {
  }

  /** A registration that fails other than by a code timeout escapes the tick: nothing is recorded, no
      spend and no banned row, although a number was bought and released. */
  lemma RejectedRegistrationLeavesNoTrace(st: Settings, rows: seq<Row>, e: TickEnv)
    requires e.prov.buy == Bought && e.prov.register.RegisterFails?
    ensures BuyRows(st, rows, e) == None || BuyRows(st, rows, e) == Some([])
    ensures BuyRows(st, rows, e) == None ==> Tick(st, rows, e) == rows
  {
  }

  // ---------- unique proxies ----------

  /** A row that is not finished and holds a proxy. */
  predicate InPlay(r: Row) { NonTerminal(r.state) && r.proxy.Some? }

  /** No two rows that are still in play hold the same proxy. */
  ghost predicate ProxiesUnique(rows: seq<Row>) {
    forall i, j :: 0 <= i < j < |rows| && InPlay(rows[i]) && InPlay(rows[j]) ==> rows[i].proxy != rows[j].proxy
  }

  /** A dynamic lease, if one is handed out, is not a proxy already in play. */
  ghost predicate LeaseFresh(st: Settings, rows: seq<Row>, e: TickEnv) {
    st.dynamic && e.prov.allocate.Some? ==> e.prov.allocate.value.uri !in UsedProxies(rows)
  }

  lemma BoughtProxyUnused(st: Settings, rows: seq<Row>, e: TickEnv)
    requires BuyRows(st, rows, e).Some? && LeaseFresh(st, rows, e)
    ensures var added := BuyRows(st, rows, e).value;
      |added| <= 1
      && forall k :: 0 <= k < |added| && InPlay(added[k]) ==> added[k].proxy.value !in UsedProxies(rows)
  {
    hide UsedProxies, TotalSpent;
  }

  lemma BuyKeepsUnique(st: Settings, rows: seq<Row>, e: TickEnv)
    requires ProxiesUnique(rows) && LeaseFresh(st, rows, e) && BuyRows(st, rows, e).Some?
    ensures ProxiesUnique(rows + BuyRows(st, rows, e).value)
  {
    BoughtProxyUnused(st, rows, e);
    hide BuyRows;
    var added := BuyRows(st, rows, e).value;
    var all := rows + added;
    forall i, j | 0 <= i < j < |all| && InPlay(all[i]) && InPlay(all[j]) ensures all[i].proxy != all[j].proxy {
      assert i < |rows|;
      assert rows[i].proxy.value in UsedProxies(rows);
      if j >= |rows| { assert all[j] == added[j - |rows|]; }
    }
  }

  /** The promote phase never puts a row back in play nor gives it another proxy. */
  lemma PromoteKeepsUnique(rows: seq<Row>, e: TickEnv)
    requires ProxiesUnique(rows) && PromoteRows(rows, e).Some?
    ensures ProxiesUnique(PromoteRows(rows, e).value)
  {
    var after := PromoteRows(rows, e).value;
    PromoteLength(rows, e);
    forall i | 0 <= i < |rows|
      ensures after[i].proxy == rows[i].proxy && (InPlay(after[i]) ==> InPlay(rows[i]))
    {
      PromoteRowsAt(rows, e, i);
    }
  }

  ghost predicate LeasesFresh(beats: seq<Beat>) {
    forall k :: 0 <= k < |beats| ==> LeaseFresh(beats[k].settings, RunTicks(beats[..k]), beats[k].env)
  }

  /** Over any run, whatever the pool of each tick, no two rows in play share a proxy. */
  lemma {:induction false} ProxiesStayUnique(beats: seq<Beat>)
    requires LeasesFresh(beats)
    ensures ProxiesUnique(RunTicks(beats))
  {
    if beats != [] {
      var front, last := beats[..|beats| - 1], beats[|beats| - 1];
      assert forall k :: 0 <= k < |front| ==> front[..k] == beats[..k];
      ProxiesStayUnique(front);
      var rows := RunTicks(front);
      assert LeaseFresh(last.settings, rows, last.env);
      TickKeepsUnique(last.settings, rows, last.env);
    }
  }

  lemma TickKeepsUnique(st: Settings, rows: seq<Row>, e: TickEnv)
    requires ProxiesUnique(rows) && LeaseFresh(st, rows, e)
    ensures ProxiesUnique(Tick(st, rows, e))
  {
    hide ProxiesUnique, LeaseFresh, BuyRows, PromoteRows;
    if BuyRows(st, rows, e).Some? {
      BuyKeepsUnique(st, rows, e);
      var all := rows + BuyRows(st, rows, e).value;
      if PromoteRows(all, e).Some? { PromoteKeepsUnique(all, e); }
    }
  }
}
