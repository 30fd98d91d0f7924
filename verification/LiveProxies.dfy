/** Proxies of promoted accounts. Promotion carries an account's proxy into the live pool, but the proxies in
    use are collected from unfinished rows only, so a static pool hands a promoted account's proxy out again. */
module LiveProxies {
  import opened AccountFactory
  import opened FactoryBudget
  import opened Wrappers

  /** A row whose account is being provisioned or is live, and holds a proxy. */
  predicate Live(r: Row) { (NonTerminal(r.state) || r.state == Promoted) && r.proxy.Some? }

  ghost predicate Holds(rows: seq<Row>, proxy: string, i: nat) {
    i < |rows| && Live(rows[i]) && rows[i].proxy == Some(proxy)
  }

  /** Two in-flight or live accounts hold one proxy. */
  ghost predicate Shared(rows: seq<Row>) {
    exists p: string, i: nat, j: nat :: i < j && Holds(rows, p, i) && Holds(rows, p, j)
  }

  /** A leased proxy, if one is handed out, is held by no in-flight or live account. */
  ghost predicate LeaseUnheld(st: Settings, rows: seq<Row>, e: TickEnv) {
    st.dynamic && e.prov.allocate.Some? ==> forall i: nat :: !Holds(rows, e.prov.allocate.value.uri, i)
  }

  ghost predicate LeasesUnheld(beats: seq<Beat>) {
    forall k :: 0 <= k < |beats| ==> LeaseUnheld(beats[k].settings, RunTicks(beats[..k]), beats[k].env)
  }

  ghost predicate ReusePossible(st: Settings) {
    exists beats: seq<Beat> :: Orderly(beats, st) && LeasesUnheld(beats) && Shared(RunTicks(beats))
  }

  /** The factory is on with a static pool, and its budget admits a second number after a proxied account. */
  predicate ReuseCondition(st: Settings) {
    st.enabled && !st.dynamic && st.pool != [] && CanAfford(st.price + st.proxyPrice, st.price, st.budget)
  }

  // ---------- without the condition nothing is shared ----------

  /** Live rows have paid for their number and their proxy. */
  ghost predicate RowCosts(st: Settings, rows: seq<Row>) {
    forall i :: 0 <= i < |rows| ==>
      rows[i].cost >= 0.0 && (Live(rows[i]) ==> rows[i].cost == st.price + st.proxyPrice)
  }

  lemma {:induction false} SpentCovers(st: Settings, rows: seq<Row>, i: nat)
    requires RowCosts(st, rows)
    ensures TotalSpent(rows) >= 0.0 && (i < |rows| ==> TotalSpent(rows) >= rows[i].cost)
  {
    if rows != [] { SpentCovers(st, rows[..|rows| - 1], i); }
  }

  /** A bought row's proxy is held by nobody, or the condition holds. */
  lemma {:induction false} BoughtUnheld(st: Settings, rows: seq<Row>, e: TickEnv, p: string, i: nat)
    requires RowCosts(st, rows) && LeaseUnheld(st, rows, e) && !ReuseCondition(st) && st.enabled
    requires BuyRows(st, rows, e).Some? && Holds(BuyRows(st, rows, e).value, p, 0)
    ensures !Holds(rows, p, i)
  {
    SpentCovers(st, rows, i);
    hide UsedProxies, TotalSpent;
  }

  lemma {:induction false} BoughtCosts(st: Settings, rows: seq<Row>, e: TickEnv)
    requires st.price >= 0.0 && st.proxyPrice >= 0.0 && BuyRows(st, rows, e).Some?
    ensures |BuyRows(st, rows, e).value| <= 1 && RowCosts(st, BuyRows(st, rows, e).value)
  {
    hide UsedProxies, TotalSpent;
  }

  /** The promote phase changes neither proxy nor cost, and brings no account to life. */
  lemma {:induction false} PromoteOnward(rows: seq<Row>, e: TickEnv, i: nat)
    requires PromoteRows(rows, e).Some? && i < |rows|
    ensures |PromoteRows(rows, e).value| == |rows|
    ensures var r, r' := rows[i], PromoteRows(rows, e).value[i];
      r'.proxy == r.proxy && r'.cost == r.cost && (Live(r') ==> Live(r))
  {
    PromoteRowsAt(rows, e, i);
  }

  lemma {:induction false} PromoteKeepsApart(st: Settings, rows: seq<Row>, e: TickEnv)
    requires RowCosts(st, rows) && !Shared(rows) && PromoteRows(rows, e).Some?
    ensures RowCosts(st, PromoteRows(rows, e).value) && !Shared(PromoteRows(rows, e).value)
  {
    var after := PromoteRows(rows, e).value;
    PromoteLength(rows, e);
    forall i: nat | i < |rows|
      ensures after[i].proxy == rows[i].proxy && after[i].cost == rows[i].cost && (Live(after[i]) ==> Live(rows[i]))
    {
      PromoteOnward(rows, e, i);
    }
    hide PromoteRows, Live;
    assert forall p: string, i: nat :: Holds(after, p, i) ==> Holds(rows, p, i);
  }

  lemma {:induction false} BuyKeepsApart(st: Settings, rows: seq<Row>, e: TickEnv)
    requires st.price >= 0.0 && st.proxyPrice >= 0.0 && !ReuseCondition(st) && st.enabled
    requires RowCosts(st, rows) && LeaseUnheld(st, rows, e) && !Shared(rows) && BuyRows(st, rows, e).Some?
    ensures RowCosts(st, rows + BuyRows(st, rows, e).value) && !Shared(rows + BuyRows(st, rows, e).value)
  {
    var added := BuyRows(st, rows, e).value;
    var all := rows + added;
    BoughtCosts(st, rows, e);
    hide BuyRows, ReuseCondition, LeaseUnheld, Live;
    forall p: string, i: nat | Holds(added, p, 0) ensures !Holds(rows, p, i) {
      BoughtUnheld(st, rows, e, p, i);
    }
    assert forall p: string, i: nat :: Holds(all, p, i) ==>
      if i < |rows| then Holds(rows, p, i) else Holds(added, p, 0) && i == |rows|;
  }

  lemma {:induction false} TickKeepsApart(st: Settings, rows: seq<Row>, e: TickEnv)
    requires st.price >= 0.0 && st.proxyPrice >= 0.0 && !ReuseCondition(st)
    requires RowCosts(st, rows) && LeaseUnheld(st, rows, e) && !Shared(rows)
    ensures RowCosts(st, Tick(st, rows, e)) && !Shared(Tick(st, rows, e))
  {
    hide BuyRows, PromoteRows, RowCosts, Shared, LeaseUnheld, ReuseCondition;
    if st.enabled && BuyRows(st, rows, e).Some? {
      BuyKeepsApart(st, rows, e);
      var all := rows + BuyRows(st, rows, e).value;
      if PromoteRows(all, e).Some? { PromoteKeepsApart(st, all, e); }
    }
  }

  lemma {:induction false} StayApart(beats: seq<Beat>, st: Settings)
    requires st.price >= 0.0 && st.proxyPrice >= 0.0 && !ReuseCondition(st)
    requires Fixed(beats, st) && LeasesUnheld(beats)
    ensures RowCosts(st, RunTicks(beats)) && !Shared(RunTicks(beats))
  {
    hide Tick, LeaseUnheld, ReuseCondition;
    if beats != [] {
      var front, last := beats[..|beats| - 1], beats[|beats| - 1];
      assert forall k :: 0 <= k < |front| ==> front[..k] == beats[..k];
      StayApart(front, st);
      assert LeaseUnheld(st, RunTicks(front), last.env);
      TickKeepsApart(st, RunTicks(front), last.env);
    }
  }

  // ---------- with the condition three ticks share a proxy ----------

  const ALWAYS := (id: nat) => true

  /** A tick that buys and registers a number, on a probe that passes. */
  function Enrol(now: real, tgUser: int): TickEnv {
    TickEnv(now, 0, 1, Env(Bought, None, Registers("s", tgUser), false, false, false), ALWAYS, NEVER)
  }

  /** A tick with a healthy pool on such a probe: it only promotes. */
  function Rest(now: real): TickEnv {
    TickEnv(now, 1, 1, Env(Unavailable, None, CodeTimeout, false, false, false), ALWAYS, NEVER)
  }

  /** The first account is bought and promoted, and then a second one is bought. */
  function ReuseRun(st: Settings): seq<Beat> {
    [Beat(st, Enrol(0.0, 7))] + [Beat(st, Rest(Hold(st)))] + [Beat(st, Enrol(Hold(st), 8))]
  }

  /** A buy with every proxy free takes the first of the pool, and promotion never lets go of it. */
  lemma {:induction false} EnrolHolds(st: Settings, rows: seq<Row>, now: real, tgUser: int)
    requires st.enabled && !st.dynamic && st.pool != [] && UsedProxies(rows) == {}
    requires CanAfford(TotalSpent(rows), st.price, st.budget)
    ensures var after := Tick(st, rows, Enrol(now, tgUser));
      && |after| == |rows| + 1
      && TotalSpent(after) == TotalSpent(rows) + st.price + st.proxyPrice
      && (forall i :: 0 <= i < |rows| && rows[i].state == Promoted ==> after[i] == rows[i])
      && Holds(after, st.pool[0], |rows|) && Ready(after[|rows|], now + Hold(st))
  {
    var e := Enrol(now, tgUser);
    var r := OnProbation(st, Some(st.pool[0]), None, "s", tgUser, now);
    EnrolBuys(st, rows, now, tgUser);
    HoldLater(st);
    assert r.cost == st.price + st.proxyPrice && Live(r) && Ready(r, now + Hold(st)) && r.state == Probation;
    hide BuyRows, PromoteRows, UsedProxies, CanAfford, OnProbation, Ready, Hold, TotalSpent, Live, Enrol;
    PassingProbe(rows + [r], e, now + Hold(st));
    PromoteKeepsSpent(rows + [r], e);
    SpentConcat(rows, [r]);
    OneRow([r]);
  }

  /** Where the probe passes and the pool never raises, promotion keeps promoted rows and ready ones. */
  lemma {:induction false} PassingProbe(rows: seq<Row>, e: TickEnv, t: real)
    requires e.probe == ALWAYS && e.upsertRaises == NEVER
    ensures PromoteRows(rows, e).Some? && |PromoteRows(rows, e).value| == |rows|
    ensures forall i :: 0 <= i < |rows| ==>
      var r, r' := rows[i], PromoteRows(rows, e).value[i];
      && (r.state == Promoted ==> r' == r)
      && (Ready(r, t) ==> Ready(r', t) && r'.proxy == r.proxy && (Live(r) ==> Live(r')))
      && (Ready(r, t) && t <= e.now ==> r'.state == Promoted)
  {
    NeverRaises(rows, e);
    PromoteLength(rows, e);
    forall i: nat | i < |rows| ensures PromoteRow(rows[i], i, e) == Some(PromoteRows(rows, e).value[i]) {
      PromoteRowsAt(rows, e, i);
    }
    hide PromoteRows;
  }

  lemma EnrolBuys(st: Settings, rows: seq<Row>, now: real, tgUser: int)
    requires !st.dynamic && st.pool != [] && UsedProxies(rows) == {}
    requires CanAfford(TotalSpent(rows), st.price, st.budget)
    ensures BuyRows(st, rows, Enrol(now, tgUser)) ==
      Some([OnProbation(st, Some(st.pool[0]), None, "s", tgUser, now)])
  {
    hide TotalSpent, UsedProxies;
  }

  /** On probation until t at the latest with all the probe needs, or promoted. */
  ghost predicate Ready(r: Row, t: real) {
    r.state == Promoted
    || (r.state == Probation && r.session.Some? && r.tgUser.Some? && r.probationUntil.Some? && r.probationUntil.value <= t)
  }

  lemma {:induction false} RestPromotes(st: Settings, rows: seq<Row>, now: real, p: string)
    requires st.enabled && |rows| == 1 && Ready(rows[0], now) && Holds(rows, p, 0)
    ensures var after := Tick(st, rows, Rest(now));
      |after| == 1 && after[0].state == Promoted && Holds(after, p, 0) && TotalSpent(after) == TotalSpent(rows)
      && UsedProxies(after) == {}
  {
    hide PromoteRows, TotalSpent;
    assert rows + [] == rows;
    PassingProbe(rows, Rest(now), now);
    PromoteKeepsSpent(rows, Rest(now));
  }

  lemma ReuseRunShares(st: Settings)
    requires ReuseCondition(st) && st.price >= 0.0 && st.proxyPrice >= 0.0
    ensures Shared(RunTicks(ReuseRun(st)))
  {
    var first := Tick(st, [], Enrol(0.0, 7));
    var second := Tick(st, first, Rest(Hold(st)));
    var third := Tick(st, second, Enrol(Hold(st), 8));
    var a, b, c := Beat(st, Enrol(0.0, 7)), Beat(st, Rest(Hold(st))), Beat(st, Enrol(Hold(st), 8));
    assert UsedProxies([]) == {} && TotalSpent([]) == 0.0 && RunTicks([]) == [];
    RunOneMore([], a);
    RunTwoMore([a], b, c);
    assert [] + [a] == [a];
    hide Tick, TotalSpent, Hold, RunTicks, UsedProxies, Enrol, Rest, Live;
    EnrolHolds(st, [], 0.0, 7);
    RestPromotes(st, first, Hold(st), st.pool[0]);
    EnrolHolds(st, second, Hold(st), 8);
    assert Holds(third, st.pool[0], 0) && Holds(third, st.pool[0], 1);
  }

  lemma ReuseRunOrderly(st: Settings)
    requires ReuseCondition(st)
    ensures Orderly(ReuseRun(st), st) && LeasesUnheld(ReuseRun(st))
  {
    hide Hold, RunTicks;
    HoldLater(st);
  }

  /** Some run with fresh leases gives one proxy to two in-flight or live accounts exactly when the factory
      is on with a static pool and can pay for a number after a proxied account. */
  lemma LiveProxyReusedExactly(st: Settings)
    requires st.price >= 0.0 && st.proxyPrice >= 0.0
    ensures ReusePossible(st) <==> ReuseCondition(st)
  {
    assert forall beats: seq<Beat> :: Orderly(beats, st) ==> Fixed(beats, st);
    hide Shared, LeasesUnheld, RunTicks, Orderly, Fixed, ReuseCondition;
    if ReuseCondition(st) {
      ReuseRunOrderly(st);
      ReuseRunShares(st);
    } else {
      forall beats: seq<Beat> | Orderly(beats, st) && LeasesUnheld(beats) ensures !Shared(RunTicks(beats)) {
        StayApart(beats, st);
      }
    }
  }
}
