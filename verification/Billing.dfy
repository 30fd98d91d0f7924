/** IPN processing, activation and the effective plan. */
module Billing {
  import opened Wrappers

  datatype Plan = Free | Pro | Team

  datatype Period = Month | Quarter | Year

  const DAY := 86400.0
  const GRACE := 259200.0

  function ParsePlan(s: string): Option<Plan> {
    if s == "free" then Some(Free) else if s == "pro" then Some(Pro) else if s == "team" then Some(Team) else None
  }

  function ParsePeriod(s: string): Option<Period> {
    if s == "month" then Some(Month) else if s == "quarter" then Some(Quarter)
    else if s == "year" then Some(Year) else None
  }

  function PeriodLength(p: Period): (r: real)
    ensures r > 0.0
  {
    match p
    case Month => 30.0 * DAY
    case Quarter => 90.0 * DAY
    case Year => 365.0 * DAY
  }

  datatype Payment = Payment(
    user: nat, plan: string, period: string, amount: real, currency: string, status: string,
    paymentId: Option<string>, processedAt: Option<real>)

  datatype Event = Event(paymentId: string, orderId: string, status: string, amount: real, currency: string)

  datatype Subscription = Subscription(plan: string, expires: Option<real>)

  /** Rows: payments by order id, subscriptions and stored plans by user. */
  datatype Db = Db(payments: map<string, Payment>, subs: map<nat, Subscription>, plans: map<nat, string>)

  datatype Error = BadSignature | NoInvoice | AmountMismatch | CurrencyMismatch | NoUser | BadPlan | BadPeriod | DuplicatePaymentId

  datatype IpnResult = Acked(status: string, activated: bool, replay: bool) | Rejected(error: Error)

  type Lower = string -> string

  predicate Activating(status: string) { status == "finished" || status == "confirmed" }

  function InvoiceMismatch(p: Payment, e: Event, lower: Lower): Option<Error> {
    if e.amount != p.amount then Some(AmountMismatch)
    else if lower(e.currency) != lower(p.currency) then Some(CurrencyMismatch)
    else None
  }

  /** The unique index on payment_id, checked when the session is flushed. */
  ghost predicate PaymentIdTaken(payments: map<string, Payment>, order: string, id: string) {
    exists o :: o in payments && o != order && payments[o].paymentId == Some(id)
  }

  function Extended(expires: Option<real>, now: real, p: Period): real {
    (if expires.Some? && expires.value > now then expires.value else now) + PeriodLength(p)
  }

  function ExpiryOf(db: Db, user: nat): Option<real> {
    if user in db.subs then db.subs[user].expires else None
  }

  function Activate(db: Db, user: nat, plan: string, period: Period, now: real): Db {
    db.(subs := db.subs[user := Subscription(plan, Some(Extended(ExpiryOf(db, user), now, period)))],
        plans := db.plans[user := plan])
  }

  /** One verified IPN against the stored rows; a rejection rolls back. */
  ghost function Process(db: Db, e: Event, now: real, lower: Lower): (Db, IpnResult) {
    if e.orderId !in db.payments then (db, Rejected(NoInvoice))
    else
      var p := db.payments[e.orderId];
      if p.status == "processed" then (db, Acked("processed", false, true))
      else if InvoiceMismatch(p, e, lower).Some? then (db, Rejected(InvoiceMismatch(p, e, lower).value))
      else if !Activating(e.status) then
        if PaymentIdTaken(db.payments, e.orderId, e.paymentId) then (db, Rejected(DuplicatePaymentId))
        else (db.(payments := db.payments[e.orderId := p.(paymentId := Some(e.paymentId), status := e.status)]),
              Acked(e.status, false, false))
      else if p.user !in db.plans then (db, Rejected(NoUser))
      else if ParsePlan(p.plan).None? then (db, Rejected(BadPlan))
      else if ParsePeriod(p.period).None? then (db, Rejected(BadPeriod))
      else if PaymentIdTaken(db.payments, e.orderId, e.paymentId) then (db, Rejected(DuplicatePaymentId))
      else
        var paid := p.(paymentId := Some(e.paymentId), status := "processed", processedAt := Some(now));
        (Activate(db, p.user, p.plan, ParsePeriod(p.period).value, now).(payments := db.payments[e.orderId := paid]),
         Acked(e.status, true, false))
  }

  /** The stored plan until its expiry plus the grace, and free after or without one. */
  function EffectivePlan(db: Db, user: nat, now: real): Plan {
    if user !in db.plans || ParsePlan(db.plans[user]).None? then Free
    else
      var stored := ParsePlan(db.plans[user]).value;
      if stored == Free then Free
      else
        match ExpiryOf(db, user)
        case None => Free
        case Some(expires) => if expires + GRACE <= now then Free else stored
  }

  // ---------- the handler over its store ----------

  class Store {
    var payments: map<string, Payment>
    var subs: map<nat, Subscription>
    var plans: map<nat, string>

    function View(): Db
      reads this
    {
      Db(payments, subs, plans)
    }

    /** activate_or_extend */
    method ActivateOrExtend(user: nat, plan: string, period: Period, now: real)
      modifies this`subs, this`plans
      ensures View() == Activate(old(View()), user, plan, period, now)
    {
      var currentEnd := now;
      if user in subs && subs[user].expires.Some? && subs[user].expires.value > now {
        currentEnd := subs[user].expires.value;
      }
      var newExpiry := currentEnd + PeriodLength(period);
      if user !in subs {
        subs := subs[user := Subscription(plan, Some(newExpiry))];
      } else {
        subs := subs[user := subs[user].(plan := plan, expires := Some(newExpiry))];
      }
      plans := plans[user := plan];
    }

    /** flush: the unique index refuses a payment id that another order carries. */
    method PaymentIdFree(order: string, id: string) returns (free: bool)
      ensures free <==> !PaymentIdTaken(payments, order, id)
    {
      var left := payments.Keys;
      while left != {}
        invariant left <= payments.Keys
        invariant forall o :: o in payments && o !in left ==> o == order || payments[o].paymentId != Some(id)
        decreases |left|
      {
        var o :| o in left;
        if o != order && payments[o].paymentId == Some(id) { return false; }
        left := left - {o};
      }
      return true;
    }

    /** process_ipn inside its session: None stands for a failed signature check. */
    method ProcessIpn(event: Option<Event>, now: real, lower: Lower) returns (r: IpnResult)
      modifies this
      ensures event.None? ==> View() == old(View()) && r == Rejected(BadSignature)
      ensures event.Some? ==> (View(), r) == Process(old(View()), event.value, now, lower)
    {
      if event.None? { return Rejected(BadSignature); }
      var e := event.value;
      if e.orderId !in payments { return Rejected(NoInvoice); }
      var payment := payments[e.orderId];
      if payment.status == "processed" { return Acked(payment.status, false, true); }
      if e.amount != payment.amount { return Rejected(AmountMismatch); }
      if lower(e.currency) != lower(payment.currency) { return Rejected(CurrencyMismatch); }
      payment := payment.(paymentId := Some(e.paymentId));
      var free := PaymentIdFree(e.orderId, e.paymentId);
      if Activating(e.status) {
        if payment.user !in plans { return Rejected(NoUser); }
        if ParsePlan(payment.plan).None? { return Rejected(BadPlan); }
        if ParsePeriod(payment.period).None? { return Rejected(BadPeriod); }
        if !free { return Rejected(DuplicatePaymentId); }
        ActivateOrExtend(payment.user, payment.plan, ParsePeriod(payment.period).value, now);
        payment := payment.(status := "processed", processedAt := Some(now));
        payments := payments[e.orderId := payment];
        return Acked(e.status, true, false);
      }
      if !free { return Rejected(DuplicatePaymentId); }
      payments := payments[e.orderId := payment.(status := e.status)];
      return Acked(e.status, false, false);
    }
  }

  // ---------- runs of IPNs ----------

  datatype Message = Message(event: Event, at: real)

  ghost function RunIpns(db: Db, msgs: seq<Message>, lower: Lower): Db {
    if msgs == [] then db
    else
      var m := msgs[|msgs| - 1];
      Process(RunIpns(db, msgs[..|msgs| - 1], lower), m.event, m.at, lower).0
  }

  ghost predicate ActivatedBy(db: Db, m: Message, lower: Lower) {
    var r := Process(db, m.event, m.at, lower).1;
    r.Acked? && r.activated
  }

  ghost function ActivationsOf(db: Db, msgs: seq<Message>, lower: Lower, order: string): nat {
    if msgs == [] then 0
    else
      var front, m := msgs[..|msgs| - 1], msgs[|msgs| - 1];
      ActivationsOf(db, front, lower, order)
      + (if m.event.orderId == order && ActivatedBy(RunIpns(db, front, lower), m, lower) then 1 else 0)
  }

  ghost predicate IsProcessed(db: Db, order: string) {
    order in db.payments && db.payments[order].status == "processed"
  }

  /** `processed` is terminal: nothing changes the row, and nothing activates it again. */
  lemma ProcessedIsTerminal(db: Db, m: Message, lower: Lower, order: string)
    requires IsProcessed(db, order)
    ensures IsProcessed(Process(db, m.event, m.at, lower).0, order)
    ensures Process(db, m.event, m.at, lower).0.payments[order] == db.payments[order]
    ensures m.event.orderId == order ==> Process(db, m.event, m.at, lower).0 == db && !ActivatedBy(db, m, lower)
  {
  }

  /** Replayed or reordered, an order activates at most once, and never after it was processed. */
  lemma {:induction false} ActivatesAtMostOnce(db: Db, msgs: seq<Message>, lower: Lower, order: string)
    ensures ActivationsOf(db, msgs, lower, order) <= 1
    ensures ActivationsOf(db, msgs, lower, order) == 1 ==> IsProcessed(RunIpns(db, msgs, lower), order)
    ensures IsProcessed(db, order) ==>
      ActivationsOf(db, msgs, lower, order) == 0 && IsProcessed(RunIpns(db, msgs, lower), order)
  {
    if msgs != [] {
      var front, m := msgs[..|msgs| - 1], msgs[|msgs| - 1];
      ActivatesAtMostOnce(db, front, lower, order);
      var before := RunIpns(db, front, lower);
      if IsProcessed(before, order) { ProcessedIsTerminal(before, m, lower, order); }
    }
  }

  /** The message reports the invoice's exact amount, in its currency, as paid. */
  ghost predicate Pays(m: Message, invoice: Payment, order: string, lower: Lower) {
    && m.event.orderId == order && Activating(m.event.status)
    && m.event.amount == invoice.amount && lower(m.event.currency) == lower(invoice.currency)
  }

  /** What the invoice was created with. */
  ghost predicate SameInvoice(p: Payment, q: Payment) {
    p.user == q.user && p.plan == q.plan && p.period == q.period && p.amount == q.amount && p.currency == q.currency
  }

  /** Invoices never change, and none activates without a message that pays exactly what it asks for. */
  lemma {:induction false} ActivatedMeansPaid(db: Db, msgs: seq<Message>, lower: Lower, order: string)
    requires order in db.payments
    ensures var after := RunIpns(db, msgs, lower);
      order in after.payments && SameInvoice(after.payments[order], db.payments[order])
    ensures ActivationsOf(db, msgs, lower, order) > 0 ==>
      exists i :: 0 <= i < |msgs| && Pays(msgs[i], db.payments[order], order, lower)
  {
    if msgs != [] {
      var front, m := msgs[..|msgs| - 1], msgs[|msgs| - 1];
      ActivatedMeansPaid(db, front, lower, order);
      if ActivationsOf(db, front, lower, order) > 0 {
        var i :| 0 <= i < |front| && Pays(front[i], db.payments[order], order, lower);
        assert Pays(msgs[i], db.payments[order], order, lower);
      } else if ActivationsOf(db, msgs, lower, order) > 0 {
        assert Pays(msgs[|msgs| - 1], db.payments[order], order, lower);
      }
    }
  }

  ghost predicate PaymentIdsUnique(db: Db) {
    forall o, o' :: o in db.payments && o' in db.payments && o != o' && db.payments[o].paymentId.Some? ==>
      db.payments[o].paymentId != db.payments[o'].paymentId
  }

  /** No gateway payment is ever credited to two orders. */
  lemma {:induction false} PaymentIdsStayUnique(db: Db, msgs: seq<Message>, lower: Lower)
    requires PaymentIdsUnique(db)
    ensures PaymentIdsUnique(RunIpns(db, msgs, lower))
  {
    if msgs != [] {
      var front, m := msgs[..|msgs| - 1], msgs[|msgs| - 1];
      PaymentIdsStayUnique(db, front, lower);
      var before := RunIpns(db, front, lower);
      assert PaymentIdsUnique(Process(before, m.event, m.at, lower).0);
    }
  }

  ghost predicate ClaimsProcessed(m: Message, order: string) {
    m.event.orderId == order && m.event.status == "processed"
  }

  /** The open order is closed by a message of that word that passes the checks every message passes. */
  ghost predicate ClosedUnpaidBy(db: Db, m: Message, lower: Lower, order: string) {
    && order in db.payments && !IsProcessed(db, order)
    && ClaimsProcessed(m, order)
    && InvoiceMismatch(db.payments[order], m.event, lower).None?
    && !PaymentIdTaken(db.payments, order, m.event.paymentId)
  }

  /** A message closes an open order without activating it exactly when it carries that word, matches the
      invoice and brings no other order's payment id; nothing else is then written but id and status. */
  lemma ForeignProcessedStatus(db: Db, m: Message, lower: Lower, order: string)
    requires order in db.payments && !IsProcessed(db, order)
    ensures var after := Process(db, m.event, m.at, lower).0;
      && (IsProcessed(after, order) && !ActivatedBy(db, m, lower) <==> ClosedUnpaidBy(db, m, lower, order))
      && (ClosedUnpaidBy(db, m, lower, order) ==>
            after.subs == db.subs && after.plans == db.plans
            && after.payments[order].processedAt == db.payments[order].processedAt)
  {
    hide PaymentIdTaken;
  }

  ghost predicate ClosedUnpaidAt(db: Db, msgs: seq<Message>, lower: Lower, order: string, i: nat) {
    i < |msgs| && ClosedUnpaidBy(RunIpns(db, msgs[..i], lower), msgs[i], lower, order)
  }

  /** Over every run an order ends up closed without ever activating exactly when some such message met it
      while it was open. */
  lemma {:induction false} ClosedUnpaidExactly(db: Db, msgs: seq<Message>, lower: Lower, order: string)
    requires order in db.payments && !IsProcessed(db, order)
    ensures order in RunIpns(db, msgs, lower).payments
    ensures IsProcessed(RunIpns(db, msgs, lower), order) && ActivationsOf(db, msgs, lower, order) == 0 <==>
      exists i: nat :: ClosedUnpaidAt(db, msgs, lower, order, i)
    ensures IsProcessed(RunIpns(db, msgs, lower), order) <==>
      ActivationsOf(db, msgs, lower, order) == 1 || exists i: nat :: ClosedUnpaidAt(db, msgs, lower, order, i)
  {
    hide Process;
    ActivatesAtMostOnce(db, msgs, lower, order);
    if msgs != [] {
      var front, m := msgs[..|msgs| - 1], msgs[|msgs| - 1];
      ClosedUnpaidExactly(db, front, lower, order);
      ActivatesAtMostOnce(db, front, lower, order);
      var before := RunIpns(db, front, lower);
      ClosingStep(before, m, lower, order);
      forall i: nat | i < |front|
        ensures ClosedUnpaidAt(db, msgs, lower, order, i) <==> ClosedUnpaidAt(db, front, lower, order, i)
      {
        assert msgs[..i] == front[..i];
      }
      assert ClosedUnpaidAt(db, msgs, lower, order, |front|) <==> ClosedUnpaidBy(before, m, lower, order);
    }
  }

  /** One message: an order is processed after it if it was before, was closed so, or activated. */
  lemma ClosingStep(db: Db, m: Message, lower: Lower, order: string)
    requires order in db.payments
    ensures var after := Process(db, m.event, m.at, lower).0;
      var activated := m.event.orderId == order && ActivatedBy(db, m, lower);
      && order in after.payments
      && (IsProcessed(after, order) <==>
            IsProcessed(db, order) || activated || ClosedUnpaidBy(db, m, lower, order))
      && (activated ==> !IsProcessed(db, order) && !ClosedUnpaidBy(db, m, lower, order))
  {
    hide PaymentIdTaken;
  }

  /** Intermediate statuses never lock an order out: it becomes processed only by its activation, or by
      a signed IPN that carries the internal word "processed" as its own status. */
  lemma {:induction false} ProcessedHasACause(db: Db, msgs: seq<Message>, lower: Lower, order: string)
    requires order in db.payments && !IsProcessed(db, order)
    requires forall i :: 0 <= i < |msgs| ==> !ClaimsProcessed(msgs[i], order)
    ensures var after := RunIpns(db, msgs, lower);
      && order in after.payments
      && (IsProcessed(after, order) <==> ActivationsOf(db, msgs, lower, order) == 1)
  {
    hide Process, ClosedUnpaidBy, ActivatedBy;
    ClosedUnpaidExactly(db, msgs, lower, order);
    forall i: nat ensures !ClosedUnpaidAt(db, msgs, lower, order, i) {
      if i < |msgs| { ClosingClaims(RunIpns(db, msgs[..i], lower), msgs[i], lower, order); }
    }
  }

  lemma ClosingClaims(db: Db, m: Message, lower: Lower, order: string)
    ensures ClosedUnpaidBy(db, m, lower, order) ==> ClaimsProcessed(m, order)
  {
  }

  /** It happens: one pending order, one message with its exact amount. */
  lemma ClosedUnpaidWitness()
    ensures var invoice := Payment(1, "pro", "month", 20.0, "usd", "waiting", None, None);
      var db := Db(map["order" := invoice], map[], map[1 := "free"]);
      var m := Message(Event("p1", "order", "processed", 20.0, "usd"), 0.0);
      ClosedUnpaidAt(db, [m], x => x, "order", 0) && EffectivePlan(RunIpns(db, [m], x => x), 1, 0.0) == Free
  {
    var invoice := Payment(1, "pro", "month", 20.0, "usd", "waiting", None, None);
    var db := Db(map["order" := invoice], map[], map[1 := "free"]);
    var m := Message(Event("p1", "order", "processed", 20.0, "usd"), 0.0);
    assert [m][..0] == [];
    ForeignProcessedStatus(db, m, x => x, "order");
  }

  // ---------- exactly which messages activate ----------

  /** What a message has to bring to activate its order, in the words of the rows and the message. */
  ghost predicate Payable(db: Db, m: Message, lower: Lower, order: string) {
    && order in db.payments && m.event.orderId == order
    && var p, e := db.payments[order], m.event;
       && p.status != "processed"
       && (e.status == "finished" || e.status == "confirmed")
       && e.amount == p.amount && lower(e.currency) == lower(p.currency)
       && p.user in db.plans
       && (p.plan == "free" || p.plan == "pro" || p.plan == "team")
       && (p.period == "month" || p.period == "quarter" || p.period == "year")
       && !exists o :: o in db.payments && o != order && db.payments[o].paymentId == Some(e.paymentId)
  }

  function PaidDays(period: string): real {
    if period == "month" then 30.0 else if period == "quarter" then 90.0 else 365.0
  }

  /** A message activates its order exactly when it can, and then marks that row, sets both plans of the
      order's user, and moves that expiry on by the period from the later of now and itself. */
  lemma ActivatesExactly(db: Db, m: Message, lower: Lower, order: string)
    requires order in db.payments && m.event.orderId == order
    ensures ActivatedBy(db, m, lower) <==> Payable(db, m, lower, order)
    ensures Payable(db, m, lower, order) ==>
      var (after, r) := Process(db, m.event, m.at, lower);
      var p := db.payments[order];
      var left := if p.user in db.subs && db.subs[p.user].expires.Some? then db.subs[p.user].expires.value else m.at;
      && r == Acked(m.event.status, true, false)
      && after.payments == db.payments[order :=
           p.(paymentId := Some(m.event.paymentId), status := "processed", processedAt := Some(m.at))]
      && after.plans == db.plans[p.user := p.plan]
      && after.subs == db.subs[p.user :=
           Subscription(p.plan, Some((if left > m.at then left else m.at) + PaidDays(p.period) * 86400.0))]
  {
    var taken := PaymentIdTaken(db.payments, order, m.event.paymentId);
    assert taken <==> exists o :: o in db.payments && o != order && db.payments[o].paymentId == Some(m.event.paymentId);
    hide PaymentIdTaken;
  }

  ghost predicate PayableAt(db: Db, msgs: seq<Message>, lower: Lower, order: string, i: nat) {
    i < |msgs| && Payable(RunIpns(db, msgs[..i], lower), msgs[i], lower, order)
  }

  /** Over every run an order activates exactly when a message that can activate it meets it open. */
  lemma {:induction false} RunActivatesExactly(db: Db, msgs: seq<Message>, lower: Lower, order: string)
    requires order in db.payments
    ensures order in RunIpns(db, msgs, lower).payments
    ensures ActivationsOf(db, msgs, lower, order) == 1 <==> exists i: nat :: PayableAt(db, msgs, lower, order, i)
  {
    hide Process, Payable, ActivatedBy;
    ActivatesAtMostOnce(db, msgs, lower, order);
    if msgs != [] {
      var front, m := msgs[..|msgs| - 1], msgs[|msgs| - 1];
      RunActivatesExactly(db, front, lower, order);
      ActivatesAtMostOnce(db, front, lower, order);
      var before := RunIpns(db, front, lower);
      ClosingStep(before, m, lower, order);
      PayableIsActivation(before, m, lower, order);
      forall i: nat | i < |front|
        ensures PayableAt(db, msgs, lower, order, i) <==> PayableAt(db, front, lower, order, i)
      {
        assert msgs[..i] == front[..i];
      }
      assert PayableAt(db, msgs, lower, order, |front|) <==> Payable(before, m, lower, order);
    }
  }

  lemma PayableIsActivation(db: Db, m: Message, lower: Lower, order: string)
    requires order in db.payments
    ensures Payable(db, m, lower, order) <==> m.event.orderId == order && ActivatedBy(db, m, lower)
  {
    hide Process, ActivatedBy;
    if m.event.orderId == order {
      hide Payable;
      ActivatesExactly(db, m, lower, order);
    }
  }

  // ---------- what the other messages do ----------

  /** Any other matching message is acknowledged and leaves its status and payment id behind; a replay and a
      rejection leave nothing. */
  lemma OthersExactly(db: Db, m: Message, lower: Lower)
    ensures var (after, r) := Process(db, m.event, m.at, lower);
      var e := m.event;
      && (e.orderId !in db.payments ==> r == Rejected(NoInvoice))
      && (r.Rejected? ==> after == db)
      && (e.orderId in db.payments ==>
            var p := db.payments[e.orderId];
            && (r.Acked? && r.replay <==> p.status == "processed")
            && (p.status == "processed" ==> r == Acked("processed", false, true) && after == db)
            && (r == Acked(e.status, false, false) <==>
                  && p.status != "processed" && e.status != "finished" && e.status != "confirmed"
                  && e.amount == p.amount && lower(e.currency) == lower(p.currency)
                  && !exists o :: o in db.payments && o != e.orderId && db.payments[o].paymentId == Some(e.paymentId))
            && (r == Acked(e.status, false, false) ==>
                  after == db.(payments := db.payments[e.orderId :=
                    p.(paymentId := Some(e.paymentId), status := e.status)])))
  {
    var order, id := m.event.orderId, m.event.paymentId;
    assert PaymentIdTaken(db.payments, order, id) <==>
      exists o :: o in db.payments && o != order && db.payments[o].paymentId == Some(id);
    hide PaymentIdTaken;
  }

  // ---------- a user's expiry ----------

  datatype Activation = Activation(at: real, period: Period, plan: string)

  /** The message activates one of this user's orders. */
  ghost predicate Activates(db: Db, m: Message, lower: Lower, user: nat) {
    && ActivatedBy(db, m, lower)
    && m.event.orderId in db.payments && db.payments[m.event.orderId].user == user
    && ParsePeriod(db.payments[m.event.orderId].period).Some?
  }

  ghost function ActivationBy(db: Db, m: Message): Activation
    requires m.event.orderId in db.payments && ParsePeriod(db.payments[m.event.orderId].period).Some?
  {
    var p := db.payments[m.event.orderId];
    Activation(m.at, ParsePeriod(p.period).value, p.plan)
  }

  /** The activations of one user's orders, in the order they were applied. */
  ghost function UserActivations(db: Db, msgs: seq<Message>, lower: Lower, user: nat): seq<Activation> {
    if msgs == [] then []
    else
      var front, m := msgs[..|msgs| - 1], msgs[|msgs| - 1];
      var before := RunIpns(db, front, lower);
      UserActivations(db, front, lower, user)
      + (if Activates(before, m, lower, user) then [ActivationBy(before, m)] else [])
  }

  /** Total length of the periods from activation j on. */
  function Paid(acts: seq<Activation>, j: nat): real
    requires j <= |acts|
    decreases |acts| - j
  {
    if j == |acts| then 0.0 else PeriodLength(acts[j].period) + Paid(acts, j + 1)
  }

  /** e is the largest of t_j + (periods from j on), and of the initial expiry plus all periods. */
  ghost predicate IsLatest(e: real, initial: Option<real>, acts: seq<Activation>) {
    && (forall j :: 0 <= j < |acts| ==> e >= acts[j].at + Paid(acts, j))
    && (initial.Some? ==> e >= initial.value + Paid(acts, 0))
    && ((initial.Some? && e == initial.value + Paid(acts, 0))
        || exists j :: 0 <= j < |acts| && e == acts[j].at + Paid(acts, j))
  }

  lemma {:induction false} PaidAppend(acts: seq<Activation>, a: Activation, j: nat)
    requires j <= |acts|
    ensures Paid(acts + [a], j) == Paid(acts, j) + PeriodLength(a.period)
    decreases |acts| - j
  {
    if j < |acts| {
      PaidAppend(acts, a, j + 1);
    } else {
      assert Paid(acts + [a], |acts| + 1) == 0.0;
    }
  }

  lemma LatestExtends(e: Option<real>, initial: Option<real>, acts: seq<Activation>, a: Activation)
    requires if acts == [] then e == initial else e.Some? && IsLatest(e.value, initial, acts)
    ensures IsLatest(Extended(e, a.at, a.period), initial, acts + [a])
  {
    var all := acts + [a];
    var e' := Extended(e, a.at, a.period);
    forall j | 0 <= j <= |acts| ensures Paid(all, j) == Paid(acts, j) + PeriodLength(a.period) {
      PaidAppend(acts, a, j);
    }
    assert all[|acts|] == a && Paid(acts, |acts|) == 0.0;
    if e.Some? && e.value > a.at {
      if acts != [] && !(initial.Some? && e.value == initial.value + Paid(acts, 0)) {
        var j :| 0 <= j < |acts| && e.value == acts[j].at + Paid(acts, j);
        assert e' == all[j].at + Paid(all, j);
      }
    } else {
      assert e' == all[|acts|].at + Paid(all, |acts|);
    }
  }

  /** After any run a user's expiry is the max-plus sum of their activations, untouched without one. */
  lemma {:induction false} ExpiryIsMaxPlus(db: Db, msgs: seq<Message>, lower: Lower, user: nat)
    ensures var acts := UserActivations(db, msgs, lower, user);
      var e := ExpiryOf(RunIpns(db, msgs, lower), user);
      if acts == [] then e == ExpiryOf(db, user) else e.Some? && IsLatest(e.value, ExpiryOf(db, user), acts)
  {
    hide Process, IsLatest, ExpiryOf, Extended, ActivatedBy;
    if msgs != [] {
      var front, m := msgs[..|msgs| - 1], msgs[|msgs| - 1];
      ExpiryIsMaxPlus(db, front, lower, user);
      var before := RunIpns(db, front, lower);
      StepExpiry(before, m, lower, user);
      if Activates(before, m, lower, user) {
        LatestExtends(ExpiryOf(before, user), ExpiryOf(db, user), UserActivations(db, front, lower, user),
                      ActivationBy(before, m));
      } else {
        assert UserActivations(db, msgs, lower, user) == UserActivations(db, front, lower, user);
      }
    }
  }

  /** Only an activation of one of the user's own orders moves the expiry or the plan. */
  lemma StepExpiry(db: Db, m: Message, lower: Lower, user: nat)
    ensures var db' := Process(db, m.event, m.at, lower).0;
      if Activates(db, m, lower, user) then
        var a := ActivationBy(db, m);
        && ParsePlan(a.plan).Some?
        && ExpiryOf(db', user) == Some(Extended(ExpiryOf(db, user), a.at, a.period))
        && user in db'.plans && db'.plans[user] == a.plan
      else ExpiryOf(db', user) == ExpiryOf(db, user)
           && (user in db'.plans <==> user in db.plans) && (user in db.plans ==> db'.plans[user] == db.plans[user])
  {
    hide PaymentIdTaken, InvoiceMismatch;
  }

  /** A paid plan is effective exactly while it is stored and its expiry plus 72 hours is still to come. */
  lemma EffectivePlanExactly(db: Db, user: nat, now: real)
    ensures EffectivePlan(db, user, now) == Pro <==>
      && user in db.plans && db.plans[user] == "pro" && user in db.subs
      && db.subs[user].expires.Some? && now < db.subs[user].expires.value + 72.0 * 3600.0
    ensures EffectivePlan(db, user, now) == Team <==>
      && user in db.plans && db.plans[user] == "team" && user in db.subs
      && db.subs[user].expires.Some? && now < db.subs[user].expires.value + 72.0 * 3600.0
  {
  }

  /** The last activated plan is effective exactly until the expiry plus the grace. */
  lemma {:induction false} PlanKeptUntilGraceEnds(db: Db, msgs: seq<Message>, lower: Lower, user: nat, now: real)
    requires UserActivations(db, msgs, lower, user) != []
    ensures var acts := UserActivations(db, msgs, lower, user);
      var after := RunIpns(db, msgs, lower);
      var plan := ParsePlan(acts[|acts| - 1].plan);
      && plan.Some? && ExpiryOf(after, user).Some?
      && EffectivePlan(after, user, now) ==
         (if now < ExpiryOf(after, user).value + GRACE then plan.value else Free)
  {
    StoredPlan(db, msgs, lower, user);
    ExpiryIsMaxPlus(db, msgs, lower, user);
  }

  lemma {:induction false} StoredPlan(db: Db, msgs: seq<Message>, lower: Lower, user: nat)
    requires UserActivations(db, msgs, lower, user) != []
    ensures var acts := UserActivations(db, msgs, lower, user);
      var after := RunIpns(db, msgs, lower);
      && user in after.plans && after.plans[user] == acts[|acts| - 1].plan
      && ParsePlan(acts[|acts| - 1].plan).Some?
  {
    var front, m := msgs[..|msgs| - 1], msgs[|msgs| - 1];
    var before := RunIpns(db, front, lower);
    StepExpiry(before, m, lower, user);
    if !Activates(before, m, lower, user) {
      StoredPlan(db, front, lower, user);
    }
  }
}
