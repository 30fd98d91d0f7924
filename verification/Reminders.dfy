/** The renewal-reminder sweep over the 7, 3 and 1 day windows. */
module Reminders {
  import opened Wrappers

  const DAY := 86400.0

  datatype Subscription = Subscription(expires: Option<real>, plan: string, lastWindow: Option<int>)

  /** How one reminder fares: the mail fails, the mail leaves but recording it fails, or both succeed. */
  datatype Send = MailFails | CommitFails | Sent

  function DaysLeft(expires: real, now: real): real { (expires - now) / DAY }

  /** The smallest window not yet entered past. */
  function CurrentWindow(daysLeft: real): Option<int> {
    if daysLeft <= 1.0 then Some(1) else if daysLeft <= 3.0 then Some(3)
    else if daysLeft <= 7.0 then Some(7) else None
  }

  /** The rows the sweep selects: paid, not yet expired, expiring within the widest window. */
  predicate Selected(s: Subscription, now: real) {
    s.expires.Some? && now < s.expires.value <= now + 7.0 * DAY && s.plan != "free"
  }

  /** The window a sweep at `now` tries to send for, if any. */
  function Due(s: Subscription, now: real): Option<int> {
    if !Selected(s, now) then None
    else
      var w := CurrentWindow(DaysLeft(s.expires.value, now));
      if w == s.lastWindow then None else w
  }

  function Swept(s: Subscription, now: real, send: Send): Subscription {
    if Due(s, now).Some? && send == Sent then s.(lastWindow := Due(s, now)) else s
  }

  /** The sweep over all rows; `subs` are updated in place, each row committed on its own. */
  method CheckExpiring(subs: array<Subscription>, now: real, sends: seq<Send>) returns (sent: nat)
    requires |sends| == subs.Length
    modifies subs
    ensures forall i :: 0 <= i < subs.Length ==>
      var due := Due(old(subs[i]), now);
      subs[i] == if due.Some? && sends[i] == Sent then old(subs[i]).(lastWindow := due) else old(subs[i])
    ensures sent == |set i | 0 <= i < subs.Length && Due(old(subs[i]), now).Some? && sends[i] == Sent|
  {
    hide CurrentWindow, DaysLeft;
    sent := 0;
    ghost var done: set<int> := {};
    for i := 0 to subs.Length
      invariant forall k :: 0 <= k < i ==> subs[k] == Swept(old(subs[k]), now, sends[k])
      invariant forall k :: i <= k < subs.Length ==> subs[k] == old(subs[k])
      invariant done == set k | 0 <= k < i && Due(old(subs[k]), now).Some? && sends[k] == Sent
      invariant sent == |done|
    {
      var s := subs[i];
      if Selected(s, now) {
        var w := CurrentWindow(DaysLeft(s.expires.value, now));
        if w.Some? && w != s.lastWindow {
          match sends[i] {
            case MailFails =>
            case CommitFails =>
            case Sent =>
              subs[i] := s.(lastWindow := w);
              done, sent := done + {i}, sent + 1;
          }
        }
      }
    }
  }

  /** Window w is due exactly for a paid subscription with more than 0 and at most w days left, no narrower
      window being wide enough, for which w is not the window recorded last. */
  lemma DueExactly(s: Subscription, now: real, w: int)
    ensures Due(s, now) == Some(w) <==>
      && s.expires.Some? && s.plan != "free" && s.lastWindow != Some(w)
      && var days := (s.expires.value - now) / 86400.0;
         || (w == 1 && 0.0 < days <= 1.0) || (w == 3 && 1.0 < days <= 3.0) || (w == 7 && 3.0 < days <= 7.0)
  {
  }

  /** A failed mail or commit records nothing, so that a later sweep in the same window tries again. */
  lemma FailureIsRetried(s: Subscription, now: real, later: real, failure: Send)
    requires Due(s, now).Some? && failure != Sent && now <= later && Selected(s, later)
    requires CurrentWindow(DaysLeft(s.expires.value, later)) == CurrentWindow(DaysLeft(s.expires.value, now))
    ensures Swept(s, now, failure) == s && Due(Swept(s, now, failure), later) == Due(s, now)
  {
  }

  // ---------- one subscription over many sweeps ----------

  datatype Sweep = Sweep(now: real, send: Send)

  function After(s: Subscription, sweeps: seq<Sweep>): Subscription {
    if sweeps == [] then s
    else
      var last := sweeps[|sweeps| - 1];
      Swept(After(s, sweeps[..|sweeps| - 1]), last.now, last.send)
  }

  /** The windows successfully reminded, in order. */
  function Reminded(s: Subscription, sweeps: seq<Sweep>): seq<int> {
    if sweeps == [] then []
    else
      var front, last := sweeps[..|sweeps| - 1], sweeps[|sweeps| - 1];
      var due := Due(After(s, front), last.now);
      Reminded(s, front) + (if due.Some? && last.send == Sent then [due.value] else [])
  }

  ghost predicate InOrder(sweeps: seq<Sweep>) {
    forall i, j :: 0 <= i < j < |sweeps| ==> sweeps[i].now <= sweeps[j].now
  }

  ghost predicate StrictlyDecreasing(ws: seq<int>) {
    forall i, j :: 0 <= i < j < |ws| ==> ws[i] > ws[j]
  }

  lemma WindowsNarrow(expires: real, now: real, later: real)
    requires now <= later && CurrentWindow(DaysLeft(expires, now)).Some?
    ensures CurrentWindow(DaysLeft(expires, later)).Some?
    ensures CurrentWindow(DaysLeft(expires, later)).value <= CurrentWindow(DaysLeft(expires, now)).value
  {
  }

  /** Once a window is recorded, any window due later is narrower. */
  lemma DueNarrows(s: Subscription, now: real, later: real)
    requires now <= later && Due(s, now).Some?
    ensures var w := Due(s, now).value; var s' := s.(lastWindow := Some(w));
      && (w == 7 || w == 3 || w == 1)
      && (s.lastWindow.Some? ==> w != s.lastWindow.value)
      && (Due(s', later).Some? ==> Due(s', later).value < w)
  {
    hide DaysLeft;
    if Selected(s, later) { WindowsNarrow(s.expires.value, now, later); }
  }

  /** What has been reminded so far: windows from 7, 3, 1, the last of them recorded, and wide enough
      for any window still to come. */
  lemma {:induction false} RemindedInvariant(s: Subscription, sweeps: seq<Sweep>, later: real)
    requires InOrder(sweeps) && forall i :: 0 <= i < |sweeps| ==> sweeps[i].now <= later
    ensures var sent, after := Reminded(s, sweeps), After(s, sweeps);
      && after.expires == s.expires && after.plan == s.plan
      && StrictlyDecreasing(sent)
      && (forall w :: w in sent ==> w == 7 || w == 3 || w == 1)
      && (if sent == [] then after.lastWindow == s.lastWindow
          else after.lastWindow == Some(sent[|sent| - 1])
               && (Due(after, later).Some? ==> Due(after, later).value < sent[|sent| - 1]))
  {
    hide Due;
    if sweeps != [] {
      var front, last := sweeps[..|sweeps| - 1], sweeps[|sweeps| - 1];
      RemindedInvariant(s, front, last.now);
      RemindedInvariant(s, front, later);
      var before := After(s, front);
      if Due(before, last.now).Some? { DueNarrows(before, last.now, later); }
    }
  }

  /** For a fixed expiry, whatever sends fail, each window is recorded at most once, widest first. */
  lemma RemindersDecrease(s: Subscription, sweeps: seq<Sweep>)
    requires InOrder(sweeps)
    ensures StrictlyDecreasing(Reminded(s, sweeps))
    ensures forall w :: w in Reminded(s, sweeps) ==> w == 7 || w == 3 || w == 1
  {
    if sweeps != [] {
      RemindedInvariant(s, sweeps, sweeps[|sweeps| - 1].now);
    }
  }

  // ---------- daily sweeps that succeed ----------

  /** Sweeps at most a day apart, every send succeeding. */
  ghost predicate DailyAndSent(sweeps: seq<Sweep>) {
    && (forall i :: 0 <= i < |sweeps| ==> sweeps[i].send == Sent)
    && (forall i :: 0 < i < |sweeps| ==> sweeps[i - 1].now <= sweeps[i].now <= sweeps[i - 1].now + DAY)
  }

  function First(lastWindow: Option<int>): seq<int> { if lastWindow == Some(7) then [] else [7] }

  /** What has been reminded once the days left have fallen to d. */
  function ExpectedAt(lastWindow: Option<int>, d: real): seq<int> {
    if d > 7.0 then []
    else First(lastWindow) + (if d > 3.0 then [] else if d > 1.0 then [3] else [3, 1])
  }

  function LastOf(ws: seq<int>, initial: Option<int>): Option<int> {
    if ws == [] then initial else Some(ws[|ws| - 1])
  }

  lemma {:induction false} DailyProgress(s: Subscription, sweeps: seq<Sweep>)
    requires DailyAndSent(sweeps) && sweeps != []
    requires s.expires.Some? && s.plan != "free" && DaysLeft(s.expires.value, sweeps[0].now) > 7.0
    ensures var d := DaysLeft(s.expires.value, sweeps[|sweeps| - 1].now);
      var after := After(s, sweeps);
      && Reminded(s, sweeps) == ExpectedAt(s.lastWindow, d)
      && after == s.(lastWindow := LastOf(Reminded(s, sweeps), s.lastWindow))
  {
    var front, last := sweeps[..|sweeps| - 1], sweeps[|sweeps| - 1];
    if front == [] {
      assert After(s, front) == s && Reminded(s, front) == [];
    } else {
      DailyProgress(s, front);
      DailyStep(s, After(s, front), front[|front| - 1].now, last.now);
    }
  }

  /** One more daily sweep reminds exactly the window it has just entered. */
  lemma DailyStep(s: Subscription, before: Subscription, prev: real, now: real)
    requires s.expires.Some? && s.plan != "free" && prev <= now <= prev + DAY
    requires var sent := ExpectedAt(s.lastWindow, DaysLeft(s.expires.value, prev));
      before == s.(lastWindow := LastOf(sent, s.lastWindow))
    ensures var due := Due(before, now);
      ExpectedAt(s.lastWindow, DaysLeft(s.expires.value, now)) ==
      ExpectedAt(s.lastWindow, DaysLeft(s.expires.value, prev)) + (if due.Some? then [due.value] else [])
  {
    var d, d' := DaysLeft(s.expires.value, prev), DaysLeft(s.expires.value, now);
    assert d - 1.0 <= d' <= d;
    assert Selected(before, now) <==> 0.0 < d' <= 7.0;
  }

  /** Sweeps from before the 7-day window to the expiry, a day apart at most, all sent: the windows come
      out 7, 3, 1, each once, exactly when 7 is not still recorded from an earlier period. */
  lemma {:induction false} AllThreeOnce(s: Subscription, sweeps: seq<Sweep>)
    requires DailyAndSent(sweeps) && sweeps != []
    requires s.expires.Some? && s.plan != "free"
    requires DaysLeft(s.expires.value, sweeps[0].now) > 7.0
    requires sweeps[|sweeps| - 1].now >= s.expires.value
    ensures Reminded(s, sweeps) == [7, 3, 1] <==> s.lastWindow != Some(7)
    ensures s.lastWindow == Some(7) ==> Reminded(s, sweeps) == [3, 1]
  {
    DailyProgress(s, sweeps);
    assert [7] + [3, 1] == [7, 3, 1] && [] + [3, 1] == [3, 1];
  }
}
