/** The account factory's USD budget over whole runs of ticks. */
module FactoryBudget {
  import opened RealArithmetic
  import opened AccountFactory
  import opened Wrappers

  lemma {:induction false} SpentConcat(a: seq<Row>, b: seq<Row>)
    ensures TotalSpent(a + b) == TotalSpent(a) + TotalSpent(b)
  {
    if b == [] {
      assert a + b == a;
    } else {
      SpentConcat(a, b[..|b| - 1]);
      assert (a + b)[..|a + b| - 1] == a + b[..|b| - 1];
    }
  }

  lemma {:induction false} PromoteKeepsSpent(rows: seq<Row>, e: TickEnv)
    requires PromoteRows(rows, e).Some?
    ensures TotalSpent(PromoteRows(rows, e).value) == TotalSpent(rows)
  {
    if rows != [] {
      var k := |rows| - 1;
      PromoteKeepsSpent(rows[..k], e);
      var front := PromoteRows(rows[..k], e).value;
      var after := PromoteRows(rows, e).value;
      assert after[..|after| - 1] == front;
    }
  }

  /** What a tick adds to the recorded spend. */
  function Spend(st: Settings, rows: seq<Row>, e: TickEnv): real {
    TotalSpent(Tick(st, rows, e)) - TotalSpent(rows)
  }

  /** What a proxy adds to the cost of a provisioned account: none is ever assigned from an empty pool. */
  function ProxyShare(st: Settings): real { if st.dynamic || st.pool != [] then st.proxyPrice else 0.0 }

  lemma AddedCost(st: Settings, rows: seq<Row>, e: TickEnv)
    requires BuyRows(st, rows, e).Some? && st.proxyPrice >= 0.0
    ensures var added := BuyRows(st, rows, e).value;
      added == [] || (|added| == 1 && CanAfford(TotalSpent(rows), st.price, st.budget)
        && st.price <= TotalSpent(added) <= st.price + ProxyShare(st))
  {
    var added := BuyRows(st, rows, e).value;
    if added != [] { assert |added| == 1 && added == [added[0]] && added[..0] == []; }
  }

  /** A tick adds no row and spends nothing, or adds one row for a number it could afford plus at most
      one proxy. */
  lemma TickSpend(st: Settings, rows: seq<Row>, e: TickEnv)
    requires st.proxyPrice >= 0.0
    ensures var after := Tick(st, rows, e);
      || (|after| == |rows| && Spend(st, rows, e) == 0.0)
      || (|after| == |rows| + 1 && CanAfford(TotalSpent(rows), st.price, st.budget)
          && st.price <= Spend(st, rows, e) <= st.price + ProxyShare(st))
  {
    hide ProxyShare;
    if st.enabled && BuyRows(st, rows, e).Some? {
      var added := BuyRows(st, rows, e).value;
      SpentConcat(rows, added);
      AddedCost(st, rows, e);
      if PromoteRows(rows + added, e).Some? {
        PromoteKeepsSpent(rows + added, e);
        PromoteLength(rows + added, e);
      }
    }
  }

  ghost predicate Fixed(beats: seq<Beat>, st: Settings) {
    forall k :: 0 <= k < |beats| ==> beats[k].settings == st
  }

  /** With fixed settings the recorded spend never exceeds the budget by more than one proxy. */
  lemma {:induction false} SpendBounded(beats: seq<Beat>, st: Settings)
    requires Fixed(beats, st) && st.budget >= 0.0 && st.proxyPrice >= 0.0
    ensures TotalSpent(RunTicks(beats)) <= st.budget + ProxyShare(st) <= st.budget + st.proxyPrice
  {
    if beats != [] {
      var front := beats[..|beats| - 1];
      SpendBounded(front, st);
      TickSpend(st, RunTicks(front), beats[|beats| - 1].env);
    }
  }

  // ---------- exactly when the cap is hard ----------

  /** p added n times. */
  function Times(n: nat, p: real): real { if n == 0 then 0.0 else Times(n - 1, p) + p }

  lemma {:induction false} TimesOrdered(n: nat, m: nat, p: real)
    requires n <= m && p >= 0.0
    ensures 0.0 <= Times(n, p) <= Times(m, p)
    ensures n < m ==> Times(n, p) + p <= Times(m, p)
  {
    if n < m { TimesOrdered(n, m - 1, p); } else if n > 0 { TimesOrdered(n - 1, n - 1, p); }
  }

  lemma {:induction false} TimesSum(n: nat, p: real, q: real)
    ensures Times(n, p + q) == Times(n, p) + Times(n, q)
  {
    if n > 0 { TimesSum(n - 1, p, q); }
  }

  /** The largest number of copies of p, up to limit, that fits into b. */
  function Fitting(b: real, p: real, limit: nat): (n: nat)
    requires b >= 0.0
    ensures n <= limit && Times(n, p) <= b
    ensures n < limit ==> b < Times(n + 1, p)
  {
    if limit == 0 then 0
    else
      var n := Fitting(b, p, limit - 1);
      if n == limit - 1 && Times(limit, p) <= b then limit else n
  }

  /** m is how many numbers alone the budget pays for. */
  ghost predicate IsAffordable(st: Settings, m: nat) {
    Times(m, st.price) <= st.budget < Times(m + 1, st.price)
  }

  /** Every recorded row costs a number, and at most a number and a proxy; the numbers alone fit. */
  lemma {:induction false} SpendPerRow(beats: seq<Beat>, st: Settings)
    requires Fixed(beats, st) && st.budget >= 0.0 && st.proxyPrice >= 0.0 && st.price >= 0.0
    ensures var n, spent := |RunTicks(beats)|, TotalSpent(RunTicks(beats));
      Times(n, st.price) <= spent <= Times(n, st.price + ProxyShare(st)) && Times(n, st.price) <= st.budget
  {
    assert TotalSpent([]) == 0.0;
    hide Tick, TotalSpent, ProxyShare;
    if beats != [] {
      var front := beats[..|beats| - 1];
      SpendPerRow(front, st);
      TickSpend(st, RunTicks(front), beats[|beats| - 1].env);
    }
  }

  /** If every number the budget pays for can be bought with its proxy, the cap is hard. */
  lemma CapHolds(beats: seq<Beat>, st: Settings, m: nat)
    requires Fixed(beats, st) && st.budget >= 0.0 && st.proxyPrice >= 0.0 && st.price > 0.0
    requires IsAffordable(st, m) && Times(m, st.price + ProxyShare(st)) <= st.budget
    ensures TotalSpent(RunTicks(beats)) <= st.budget
  {
    hide RunTicks, TotalSpent;
    SpendPerRow(beats, st);
    var n := |RunTicks(beats)|;
    if n > m {
      TimesOrdered(m + 1, n, st.price);
    } else {
      TimesOrdered(n, m, st.price + ProxyShare(st));
    }
  }

  // ---------- a run that spends as badly as possible ----------

  const NEVER := (id: nat) => false

  /** A tick that buys a number, with a proxy to be had, on a probe that always fails. */
  function Attempt(register: Register, now: real): TickEnv {
    TickEnv(now, 0, 1, Env(Bought, Some(Lease("1", "socks5://p")), register, false, false, false), NEVER, NEVER)
  }

  /** A tick with a healthy pool: it buys nothing. */
  function Idle(now: real): TickEnv {
    TickEnv(now, 1, 1, Env(Unavailable, None, CodeTimeout, false, false, false), NEVER, NEVER)
  }

  /** How long a proxied account is kept before the probe fails it and its proxy is free again. */
  function Hold(st: Settings): real { if st.probationDays > 0.0 then st.probationDays * 86400.0 else 0.0 }

  /** First numbers whose code never comes, then proxied accounts, each given up before the next. */
  function WorstRun(st: Settings, timeouts: nat, proxied: nat): seq<Beat> {
    if proxied > 0 then
      WorstRun(st, timeouts, proxied - 1)
      + [Beat(st, Attempt(Registers("s", 7), Times(proxied - 1, Hold(st))))]
      + [Beat(st, Idle(Times(proxied, Hold(st))))]
    else if timeouts > 0 then WorstRun(st, timeouts - 1, 0) + [Beat(st, Attempt(CodeTimeout, 0.0))]
    else []
  }

  /** Every row has failed, or will fail its probe by t. */
  ghost predicate GoneBy(rows: seq<Row>, t: real) {
    forall i :: 0 <= i < |rows| ==>
      rows[i].state == Failed
      || (rows[i].state == Probation && rows[i].probationUntil.Some? && rows[i].probationUntil.value <= t)
  }

  ghost predicate AllFailed(rows: seq<Row>) { forall i :: 0 <= i < |rows| ==> rows[i].state == Failed }

  lemma {:induction false} NeverRaises(rows: seq<Row>, e: TickEnv)
    requires forall id :: !e.upsertRaises(id)
    ensures PromoteRows(rows, e).Some?
  {
    if rows != [] { NeverRaises(rows[..|rows| - 1], e); }
  }

  lemma ProbeFailsAll(rows: seq<Row>, e: TickEnv, t: real)
    requires GoneBy(rows, t) && e.probe == NEVER && e.upsertRaises == NEVER
    ensures PromoteRows(rows, e).Some?
    ensures GoneBy(PromoteRows(rows, e).value, t)
    ensures t <= e.now ==> AllFailed(PromoteRows(rows, e).value)
  {
    NeverRaises(rows, e);
    PromoteLength(rows, e);
    forall i: nat | i < |rows| ensures PromoteRow(rows[i], i, e) == Some(PromoteRows(rows, e).value[i]) {
      PromoteRowsAt(rows, e, i);
    }
  }

  lemma AttemptAdds(st: Settings, rows: seq<Row>, register: Register, now: real)
    requires AllFailed(rows) && CanAfford(TotalSpent(rows), st.price, st.budget)
    requires !register.RegisterFails?
    ensures BuyRows(st, rows, Attempt(register, now)).Some?
    ensures var added := BuyRows(st, rows, Attempt(register, now)).value;
      |added| == 1 && GoneBy(added, if register.CodeTimeout? then now else now + Hold(st))
      && (register.CodeTimeout? ==> AllFailed(added))
      && added[0].cost == if register.CodeTimeout? then st.price else st.price + ProxyShare(st)
  {
    hide TotalSpent;
    assert UsedProxies(rows) == {};
    var chosen := AssignProxy(st.pool, {});
    assert st.pool != [] ==> st.pool[0] in st.pool && chosen.Some?;
  }

  /** On rows that have all failed, an attempt records its cost, and an idle tick later gives it up. */
  lemma AttemptSpend(st: Settings, rows: seq<Row>, register: Register, now: real)
    requires st.enabled && AllFailed(rows) && CanAfford(TotalSpent(rows), st.price, st.budget)
    requires !register.RegisterFails?
    ensures var after := Tick(st, rows, Attempt(register, now));
      && TotalSpent(after) ==
         TotalSpent(rows) + (if register.CodeTimeout? then st.price else st.price + ProxyShare(st))
      && GoneBy(after, now + Hold(st)) && (register.CodeTimeout? ==> AllFailed(after))
  {
    AttemptAdds(st, rows, register, now);
    hide BuyRows, PromoteRows, CanAfford, ProxyShare;
    var e := Attempt(register, now);
    var added := BuyRows(st, rows, e).value;
    OneRow(added);
    SpentConcat(rows, added);
    var t := if register.CodeTimeout? then now else now + Hold(st);
    HoldLater(st);
    ProbeFailsAll(rows + added, e, t);
    PromoteKeepsSpent(rows + added, e);
  }

  lemma HoldLater(st: Settings)
    ensures Hold(st) >= 0.0 && Hold(st) >= st.probationDays * 86400.0
  {
  }

  lemma IdleGivesUp(st: Settings, rows: seq<Row>, now: real)
    requires st.enabled && GoneBy(rows, now)
    ensures AllFailed(Tick(st, rows, Idle(now))) && TotalSpent(Tick(st, rows, Idle(now))) == TotalSpent(rows)
  {
    hide PromoteRows, TotalSpent;
    ProbeFailsAll(rows, Idle(now), now);
    PromoteKeepsSpent(rows, Idle(now));
    assert rows + [] == rows;
  }

  lemma OneRow(rows: seq<Row>)
    requires |rows| == 1
    ensures TotalSpent(rows) == rows[0].cost
  {
    assert rows[..0] == [];
  }

  lemma RunTwoMore(front: seq<Beat>, a: Beat, b: Beat)
    ensures RunTicks(front + [a] + [b]) ==
      Tick(b.settings, Tick(a.settings, RunTicks(front), a.env), b.env)
  {
    RunOneMore(front, a);
    RunOneMore(front + [a], b);
  }

  lemma RunOneMore(front: seq<Beat>, a: Beat)
    ensures RunTicks(front + [a]) == Tick(a.settings, RunTicks(front), a.env)
  {
    assert (front + [a])[..|front|] == front;
  }

  function WorstSpend(st: Settings, timeouts: nat, proxied: nat): real {
    Times(timeouts + proxied, st.price) + Times(proxied, ProxyShare(st))
  }

  /** Each attempt of the run is affordable as long as the last one is. */
  lemma {:induction false} WorstRunSpend(st: Settings, timeouts: nat, proxied: nat)
    requires st.enabled && st.price >= 0.0 && st.proxyPrice >= 0.0
    requires proxied == 0 ==> WorstSpend(st, timeouts, 0) <= st.budget
    requires proxied > 0 ==> WorstSpend(st, timeouts, proxied) - ProxyShare(st) <= st.budget
    ensures AllFailed(RunTicks(WorstRun(st, timeouts, proxied)))
    ensures TotalSpent(RunTicks(WorstRun(st, timeouts, proxied))) == WorstSpend(st, timeouts, proxied)
  {
    assert TotalSpent([]) == 0.0 && AllFailed([]);
    hide TotalSpent, Tick, AllFailed, GoneBy;
    if proxied > 0 {
      var front := WorstRun(st, timeouts, proxied - 1);
      var t := Times(proxied - 1, Hold(st));
      WorstRunSpend(st, timeouts, proxied - 1);
      AttemptSpend(st, RunTicks(front), Registers("s", 7), t);
      IdleGivesUp(st, Tick(st, RunTicks(front), Attempt(Registers("s", 7), t)), Times(proxied, Hold(st)));
      RunTwoMore(front, Beat(st, Attempt(Registers("s", 7), t)), Beat(st, Idle(Times(proxied, Hold(st)))));
    } else if timeouts > 0 {
      var front := WorstRun(st, timeouts - 1, 0);
      WorstRunSpend(st, timeouts - 1, 0);
      AttemptSpend(st, RunTicks(front), CodeTimeout, 0.0);
      RunOneMore(front, Beat(st, Attempt(CodeTimeout, 0.0)));
    }
  }

  /** The ticks of the run share their settings and come in order of time. */
  ghost predicate Orderly(beats: seq<Beat>, st: Settings) {
    && Fixed(beats, st)
    && forall j, k :: 0 <= j < k < |beats| ==> beats[j].env.now <= beats[k].env.now
  }

  lemma {:induction false} WorstRunOrderly(st: Settings, timeouts: nat, proxied: nat)
    ensures Orderly(WorstRun(st, timeouts, proxied), st)
    ensures forall k :: 0 <= k < |WorstRun(st, timeouts, proxied)| ==>
      WorstRun(st, timeouts, proxied)[k].env.now <= Times(proxied, Hold(st))
  {
    if proxied > 0 {
      WorstRunOrderly(st, timeouts, proxied - 1);
      HoldLater(st);
    } else if timeouts > 0 {
      WorstRunOrderly(st, timeouts - 1, 0);
    }
  }

  ghost predicate OverBudgetPossible(st: Settings) {
    exists beats: seq<Beat> :: Orderly(beats, st) && TotalSpent(RunTicks(beats)) > st.budget
  }

  /** If not, some run goes over: all the numbers but a few time out, and the last proxy overshoots. */
  lemma CapBreaks(st: Settings, m: nat)
    requires st.enabled && st.budget >= 0.0 && st.proxyPrice >= 0.0 && st.price > 0.0
    requires IsAffordable(st, m) && Times(m, st.price + ProxyShare(st)) > st.budget
    ensures OverBudgetPossible(st)
  {
    hide RunTicks, TotalSpent, Orderly, WorstRun, ProxyShare;
    TimesSum(m, st.price, ProxyShare(st));
    var b := Fitting(st.budget - Times(m, st.price), ProxyShare(st), m);
    assert b < m;
    var run := WorstRun(st, m - 1 - b, b + 1);
    assert WorstSpend(st, m - 1 - b, b + 1) == Times(m, st.price) + Times(b + 1, ProxyShare(st));
    WorstRunSpend(st, m - 1 - b, b + 1);
    WorstRunOrderly(st, m - 1 - b, b + 1);
    assert Orderly(run, st) && TotalSpent(RunTicks(run)) > st.budget;
  }

  /** The documented hard ceiling can be passed by some run exactly when the factory is on and the budget
      does not also pay for the proxies of all the m numbers it pays for. */
  lemma HardCapExactly(st: Settings, m: nat)
    requires st.budget >= 0.0 && st.proxyPrice >= 0.0 && st.price > 0.0
    requires IsAffordable(st, m)
    ensures OverBudgetPossible(st) <==> st.enabled && Times(m, st.price + ProxyShare(st)) > st.budget
  {
    hide RunTicks, TotalSpent, ProxyShare;
    if st.enabled && Times(m, st.price + ProxyShare(st)) > st.budget {
      CapBreaks(st, m);
    } else {
      forall beats: seq<Beat> | Orderly(beats, st) ensures TotalSpent(RunTicks(beats)) <= st.budget {
        if st.enabled { CapHolds(beats, st, m); } else { DisabledSpendsNothing(beats, st); }
      }
    }
  }

  lemma {:induction false} DisabledSpendsNothing(beats: seq<Beat>, st: Settings)
    requires Fixed(beats, st) && !st.enabled
    ensures TotalSpent(RunTicks(beats)) == 0.0
  {
    if beats != [] { DisabledSpendsNothing(beats[..|beats| - 1], st); }
  }

  lemma {:induction false} TimesIsProduct(n: nat, p: real)
    ensures Times(n, p) == n as real * p
  {
    if n > 0 {
      TimesIsProduct(n - 1, p);
      assert n as real == (n - 1) as real + 1.0;
      assert ((n - 1) as real + 1.0) * p == (n - 1) as real * p + p;
    }
  }

  /** Such an m exists: the integer part of budget / price. */
  lemma SomeAffordable(st: Settings) returns (m: nat)
    requires st.budget >= 0.0 && st.price > 0.0
    ensures m == (st.budget / st.price).Floor && IsAffordable(st, m)
  {
    var p, q := st.price, st.budget / st.price;
    assert q * p == st.budget;
    m := q.Floor;
    TimesIsProduct(m, p);
    Between(q, m as real, p, st.budget, Times(m, p));
  }

  /** When numbers are free nothing but proxies is ever spent, and it takes only a price on them. */
  lemma FreeNumbersExactly(st: Settings)
    requires st.budget >= 0.0 && st.proxyPrice >= 0.0 && st.price == 0.0
    ensures OverBudgetPossible(st) <==> st.enabled && ProxyShare(st) > 0.0
  {
    hide RunTicks, TotalSpent, WorstRun, ProxyShare;
    var share := ProxyShare(st);
    if st.enabled && share > 0.0 {
      var m := SomeAffordable(st.(price := share));
      TimesIsProduct(m + 1, 0.0);
      WorstRunSpend(st, 0, m + 1);
      WorstRunOrderly(st, 0, m + 1);
      var run := WorstRun(st, 0, m + 1);
      assert Orderly(run, st) && TotalSpent(RunTicks(run)) > st.budget;
    } else {
      forall beats: seq<Beat> | Orderly(beats, st) ensures TotalSpent(RunTicks(beats)) <= st.budget {
        if !st.enabled {
          DisabledSpendsNothing(beats, st);
        } else {
          ShareSign(st);
          SpendPerRow(beats, st);
          TimesIsProduct(|RunTicks(beats)|, 0.0);
        }
      }
    }
  }

  lemma ShareSign(st: Settings)
    requires st.proxyPrice >= 0.0
    ensures ProxyShare(st) >= 0.0
  {
  }

  lemma Between(q: real, f: real, p: real, b: real, t: real)
    requires f <= q < f + 1.0 && p > 0.0 && q * p == b && f * p == t
    ensures t <= b < t + p
  {
    var above, below := q - f, f + 1.0 - q;
    NonNegativeProduct(above, p);
    PositiveProduct(below, p);
    SplitProduct(f, above, q, p);
    SplitProduct(above, below, 1.0, p);
    Chain(t, above * p, below * p, b, p);
  }

  lemma Chain(t: real, above: real, below: real, b: real, p: real)
    requires above >= 0.0 && below > 0.0 && b == t + above && p == above + below
    ensures t <= b < t + p
  {
  }
}
