/** The renewal schedule: reconciles that follow each other no later than asked renew
    every deadline, no later than five minutes and the length of a reconcile after it. And what
    admission makes of it: the ledger goes on with the passed deadline until the next Sync. */
module Renewal {
  import opened Common
  import opened QuotaApi
  import opened LedgerSpec
  import opened SpendRuns
  import opened ReconcileSpec
  import opened Accounting
  import SpendFormat

  /** One reconcile of a schedule, with its own clock readings; its writes succeed. */
  datatype Visit = Visit(clock: Readings, monthLater: Time -> Time, gap: seq<Event>, during: seq<Event>, after: seq<Event>)
  {
    function Env(): Env {
      ReconcileSpec.Env(clock, monthLater, during, after, Written, Written)
    }

    /** Read in this order, the clock advances by at most delta while the visit lasts. */
    ghost predicate Takes(delta: int) {
      clock.due <= clock.next <= clock.until <= clock.due + delta
    }
  }

  /** The n-th visit happens at plan(n). */
  type Plan = nat -> Visit

  /** Ledger and durable status just before visit n. */
  function Before(l: Ledger, q: Quota, plan: Plan, n: nat): (Ledger, Status) {
    if n == 0 then (Run(l, plan(0).gap), q.status)
    else
      var (l', st) := Before(l, q, plan, n - 1);
      var effect := Reconciling(l', q.(status := st), plan(n - 1).Env());
      (Run(Run(l', effect.events), plan(n).gap), Durable(st, effect.attempts))
  }

  function StatusBefore(l: Ledger, q: Quota, plan: Plan, n: nat): Status {
    Before(l, q, plan, n).1
  }

  function ResultOf(l: Ledger, q: Quota, plan: Plan, n: nat): Result {
    var (l', st) := Before(l, q, plan, n);
    Reconciling(l', q.(status := st), plan(n).Env()).result
  }

  /** One visit follows the other, and none comes later than the requeue time asked for. A
      requeue time that is not positive asks for nothing. */
  ghost predicate Punctual(l: Ledger, q: Quota, plan: Plan, delta: int) {
    forall n: nat :: Prompt(l, q, plan, n, delta)
  }

  ghost predicate Prompt(l: Ledger, q: Quota, plan: Plan, n: nat, delta: int) {
    var r := ResultOf(l, q, plan, n);
    && plan(n).Env().Fair() && plan(n).Takes(delta)
    && plan(n).clock.until < plan(n + 1).clock.due
    && (r.Requeue? && r.after > 0 ==> plan(n + 1).clock.due <= plan(n).clock.until + r.after)
  }

  /** Visit n finds a deadline it must act on. */
  ghost predicate Renews(l: Ledger, q: Quota, plan: Plan, n: nat) {
    Due(StatusBefore(l, q, plan, n), plan(n).clock.due)
  }

  // ---------------------------------------------------------------- one visit

  lemma SyncedPresent(l: Ledger, q: Quota, env: Env)
    requires env.Fair()
    ensures q.LedgerKey() in Run(l, SyncEvents(q, env))
  {
    hide Installed;
    var synced := [Synced(q, env.clock.sync)];
    assert synced[..0] == [];
    RunConcat(l, synced, env.during);
    SpendConservation(Run(l, synced), env.during, q.LedgerKey());
  }

  /** One period after a clock reading, in nanoseconds for an hour and a day. */
  ghost predicate OnePeriodAfter(t: Time, interval: RenewalInterval, monthLater: Time -> Time, next: Time) {
    && (interval.Hourly? ==> next == t + 3_600_000_000_000)
    && (interval.Daily? ==> next == t + 86_400_000_000_000)
    && (interval.Monthly? ==> next == monthLater(t))
  }

  /** When a reconcile that does not renew asks to come back: at the deadline if that is ahead and
      less than five minutes away, in five minutes otherwise. */
  ghost predicate AsksInTime(r: Result, deadline: Option<Time>, now: Time) {
    && r.Requeue? && 0 < r.after <= 300_000_000_000
    && (if deadline.Some? && now < deadline.value < now + 300_000_000_000 then now + r.after == deadline.value
        else r.after == 300_000_000_000)
  }

  /** The result of a reconcile of an existing quota: an error exactly when a write fails that is
      not allowed to, a conflict on the report being allowed; after a renewal a requeue at the new
      deadline; otherwise within five minutes. */
  lemma ResultExactly(l: Ledger, q: Quota, env: Env, next: Time)
    requires env.Fair() && OnePeriodAfter(env.clock.next, q.interval, env.monthLater, next)
    ensures var result, d := Reconciling(l, q, env).result, q.status.nextRenewal;
      && (d.Some? && env.clock.due > d.value ==>
            result == if env.first == Written then Requeue(next - env.clock.until) else Error)
      && (!(d.Some? && env.clock.due > d.value) ==>
            if (d == None && env.first != Written) || env.second == Failed then result == Error
            else AsksInTime(result, if d.Some? then d else Some(next), env.clock.until))
  {
    hide Run;
    SyncedPresent(l, q, env);
  }

  /** A visit after the deadline renews and asks to come back at the new one; an earlier visit
      keeps the deadline and asks to come back in five minutes or at the deadline. */
  lemma OneVisit(l: Ledger, q: Quota, plan: Plan, n: nat, d: Time)
    requires plan(n).Env().Fair() && StatusBefore(l, q, plan, n).nextRenewal == Some(d)
    ensures var c, next, result := plan(n).clock, StatusBefore(l, q, plan, n + 1).nextRenewal, ResultOf(l, q, plan, n);
      && next.Some?
      && (c.due > d ==>
            && OnePeriodAfter(c.next, q.interval, plan(n).monthLater, next.value)
            && result == Requeue(next.value - c.until))
      && (c.due <= d ==> next.value == d && AsksInTime(result, Some(d), c.until))
  {
    hide Run, SyncEvents;
    var (l', st) := Before(l, q, plan, n);
    var now, env := q.(status := st), plan(n).Env();
    SyncedPresent(l', now, env);
    var attempts := Reconciling(l', now, env).attempts;
    assert |attempts| == 1 && attempts[0].outcome.Written?;
  }

  /** Reconciles that do not renew do not crowd: one that begins no earlier than asked for comes
      five minutes after the last or later, unless it is at the deadline or past it. */
  lemma VisitsApart(l: Ledger, q: Quota, plan: Plan, n: nat, d: Time)
    requires plan(n).Env().Fair() && StatusBefore(l, q, plan, n).nextRenewal == Some(d) && plan(n).clock.due <= d
    requires var r := ResultOf(l, q, plan, n); r.Requeue? ==> plan(n + 1).clock.sync >= plan(n).clock.until + r.after
    ensures plan(n + 1).clock.sync - plan(n).clock.until >= 300_000_000_000 || plan(n + 1).clock.sync >= d
  {
    hide StatusBefore, ResultOf;
    OneVisit(l, q, plan, n, d);
  }

  // ---------------------------------------------------------------- progress

  /** Visit r is the first from n on that renews, at most five minutes and the length of one
      visit after deadline d. */
  ghost predicate RenewsInTime(l: Ledger, q: Quota, plan: Plan, n: nat, r: nat, d: Time, delta: int) {
    && r > n && Renews(l, q, plan, r)
    && d < plan(r).clock.due <= d + 300_000_000_000 + delta
    && (forall m :: n <= m < r ==> !Renews(l, q, plan, m))
    && var next := StatusBefore(l, q, plan, r + 1).nextRenewal;
       next.Some? && OnePeriodAfter(plan(r).clock.next, q.interval, plan(r).monthLater, next.value)
  }

  /** In every punctual schedule, whatever the interval, each deadline is followed by a renewal
      in the five minutes after it, plus what a visit takes. What shrinks on the way is the time
      left to the deadline. */
  lemma {:induction false} RenewalProgress(l: Ledger, q: Quota, plan: Plan, n: nat, d: Time, delta: int) returns (r: nat)
    requires Punctual(l, q, plan, delta)
    requires StatusBefore(l, q, plan, n).nextRenewal == Some(d) && plan(n).clock.due <= d
    ensures RenewsInTime(l, q, plan, n, r, d, delta)
    ensures StatusBefore(l, q, plan, r).nextRenewal == Some(d)
    decreases d - plan(n).clock.due
  {
    hide StatusBefore, ResultOf, NextRenewal;
    assert Prompt(l, q, plan, n, delta);
    OneVisit(l, q, plan, n, d);
    if plan(n + 1).clock.due > d {
      r := n + 1;
      assert Prompt(l, q, plan, r, delta);
      OneVisit(l, q, plan, r, d);
    } else {
      r := RenewalProgress(l, q, plan, n + 1, d, delta);
    }
  }

  /** How long a period lasts, calendar months apart. */
  function Length(interval: RenewalInterval): int
    requires !interval.Monthly?
  {
    if interval.Hourly? then 3_600_000_000_000 else 86_400_000_000_000
  }

  /** The number of renewals among visits 0, ..., n - 1. */
  ghost function Renewals(l: Ledger, q: Quota, plan: Plan, n: nat): nat {
    if n == 0 then 0 else Renewals(l, q, plan, n - 1) + if Renews(l, q, plan, n - 1) then 1 else 0
  }

  lemma {:induction false} NoRenewals(l: Ledger, q: Quota, plan: Plan, n: nat, r: nat)
    requires n <= r && forall i :: n <= i < r ==> !Renews(l, q, plan, i)
    ensures Renewals(l, q, plan, r) == Renewals(l, q, plan, n)
    decreases r
  {
    hide Renews;
    if n < r {
      NoRenewals(l, q, plan, n, r - 1);
    }
  }

  /** Just before visit n, k renewals have happened and the deadline is ahead: k periods after
      the first one, and at most k times five minutes and the length of two visits more. */
  ghost predicate KthDeadline(l: Ledger, q: Quota, plan: Plan, d0: Time, delta: int, k: nat, n: nat)
    requires !q.interval.Monthly?
  {
    var st, length := StatusBefore(l, q, plan, n), Length(q.interval);
    && Renewals(l, q, plan, n) == k
    && st.nextRenewal.Some? && plan(n).clock.due <= st.nextRenewal.value
    && d0 + k * length <= st.nextRenewal.value <= d0 + k * (length + 300_000_000_000 + 2 * delta)
    && (k > 0 ==> d0 + k * length < st.nextRenewal.value)
  }

  lemma DriftBound(d0: Time, k: nat, length: int, slack: int, d: Time, t: Time)
    requires k > 0 && d0 + (k - 1) * length <= d <= d0 + (k - 1) * (length + slack)
    requires d < t <= d + slack
    ensures d0 + k * length < t + length <= d0 + k * (length + slack)
  {
    assert k * length == (k - 1) * length + length;
    assert k * (length + slack) == (k - 1) * (length + slack) + (length + slack);
  }

  lemma NextDeadline(l: Ledger, q: Quota, plan: Plan, d0: Time, delta: int, k: nat, m: nat) returns (n: nat)
    requires Punctual(l, q, plan, delta) && !q.interval.Monthly? && delta < Length(q.interval) && k > 0
    requires KthDeadline(l, q, plan, d0, delta, k - 1, m)
    ensures KthDeadline(l, q, plan, d0, delta, k, n)
  {
    hide StatusBefore, ResultOf, Renews;
    var d := StatusBefore(l, q, plan, m).nextRenewal.value;
    var r := RenewalProgress(l, q, plan, m, d, delta);
    assert Prompt(l, q, plan, r, delta);
    OneVisit(l, q, plan, r, d);
    NoRenewals(l, q, plan, m, r);
    DriftBound(d0, k, Length(q.interval), 300_000_000_000 + 2 * delta, d, plan(r).clock.next);
    n := r + 1;
  }

  lemma ZerothDeadline(l: Ledger, q: Quota, plan: Plan, d0: Time, delta: int)
    requires !q.interval.Monthly? && q.status.nextRenewal == Some(d0) && plan(0).clock.due <= d0
    ensures KthDeadline(l, q, plan, d0, delta, 0, 0)
  {
    hide Run;
  }

  /** For hourly and daily quotas whose reconciles take less than a period, the k-th deadline
      comes more than k periods after the first one, and at most k times five minutes and the
      length of two reconciles later than that, whatever the ledger does in between. */
  lemma {:induction false} DeadlineDrift(l: Ledger, q: Quota, plan: Plan, d0: Time, delta: int, k: nat) returns (n: nat)
    requires Punctual(l, q, plan, delta) && !q.interval.Monthly? && delta < Length(q.interval)
    requires q.status.nextRenewal == Some(d0) && plan(0).clock.due <= d0
    ensures KthDeadline(l, q, plan, d0, delta, k, n)
    decreases k
  {
    hide KthDeadline;
    if k == 0 {
      ZerothDeadline(l, q, plan, d0, delta);
      n := 0;
    } else {
      var m := DeadlineDrift(l, q, plan, d0, delta, k - 1);
      n := NextDeadline(l, q, plan, d0, delta, k, m);
    }
  }

  /** Successive deadlines strictly increase: a visit keeps the deadline or moves it forward. */
  lemma DeadlinesIncrease(l: Ledger, q: Quota, plan: Plan, n: nat, d: Time)
    requires plan(n).Env().Fair() && StatusBefore(l, q, plan, n).nextRenewal == Some(d)
    requires plan(n).clock.due <= plan(n).clock.next
    requires q.interval.Monthly? ==> plan(n).monthLater(plan(n).clock.next) > plan(n).clock.next
    ensures var next := StatusBefore(l, q, plan, n + 1).nextRenewal;
      next.Some? && (if Renews(l, q, plan, n) then next.value > plan(n).clock.next > d else next.value == d)
  {
    OneVisit(l, q, plan, n, d);
  }

  /** A quota without a deadline gets one on its first visit, one period ahead. */
  lemma FirstDeadline(l: Ledger, q: Quota, plan: Plan, n: nat)
    requires plan(n).Env().Fair() && StatusBefore(l, q, plan, n).nextRenewal == None
    ensures var next := StatusBefore(l, q, plan, n + 1).nextRenewal;
      next.Some? && OnePeriodAfter(plan(n).clock.next, q.interval, plan(n).monthLater, next.value)
    ensures StatusBefore(l, q, plan, n).state == Unset ==>
      var (l', st) := Before(l, q, plan, n);
      Reconciling(l', q.(status := st), plan(n).Env()).attempts[0].status.state == Active
  {
    hide Run, SyncEvents, RequeueAfter;
    var (l', st) := Before(l, q, plan, n);
    var now, env := q.(status := st), plan(n).Env();
    SyncedPresent(l', now, env);
    var attempts := Reconciling(l', now, env).attempts;
    assert |attempts| == 2 && attempts[1].outcome.Written?;
  }

  // ---------------------------------------------------------------- admission between visits

  /** The log spends from or resets the key, and does nothing else to it. */
  ghost predicate NoSync(h: seq<Event>, k: string) {
    forall i :: 0 <= i < |h| ==> h[i].LedgerKey() == k ==> h[i].Spent? || h[i].Zeroed?
  }

  /** The ledger at some point after the Sync of visit n, h being what happened since. */
  function AfterSync(l: Ledger, q: Quota, plan: Plan, n: nat, h: seq<Event>): Ledger {
    var (l', st) := Before(l, q, plan, n);
    Run(l', [Synced(q.(status := st), plan(n).clock.sync)] + h)
  }

  /** The ledger when visit n returns is such a point. */
  lemma ReturnIsAfterSync(l: Ledger, q: Quota, plan: Plan, n: nat) returns (h: seq<Event>)
    requires plan(n).Env().Fair()
    ensures NoSync(h, q.LedgerKey())
    ensures var (l', st) := Before(l, q, plan, n);
      Run(l', Reconciling(l', q.(status := st), plan(n).Env()).events) == AfterSync(l, q, plan, n, h)
  {
    hide Run, NextRenewal;
    var (l', st) := Before(l, q, plan, n);
    var env, events := plan(n).Env(), Reconciling(l', q.(status := st), plan(n).Env()).events;
    h := events[1..];
    assert events == [Synced(q.(status := st), env.clock.sync)] + h;
    forall i | 0 <= i < |h| ensures h[i].Spent? || h[i].Zeroed? {
      assert h[i] == events[i + 1];
    }
  }

  /** From the Sync of visit n to the next Sync the deadline in force is the one visit n read:
      up to it Check answers the entry's state, and from then on Active. */
  lemma DeadlineInForce(l: Ledger, q: Quota, plan: Plan, n: nat, d: Time, h: seq<Event>, now: Time)
    requires StatusBefore(l, q, plan, n).nextRenewal == Some(d) && NoSync(h, q.LedgerKey())
    ensures var l', k := AfterSync(l, q, plan, n, h), q.LedgerKey();
      k in l' && CheckKey(l', k, now) == if now > d then Active else l'[k].state
  {
    hide SpendFormat.Parse, Before;
    var (l', st) := Before(l, q, plan, n);
    var e := Synced(q.(status := st), plan(n).clock.sync);
    RunConcat(l', [e], h);
    RunSnoc(l', [], e);
    assert [] + [e] == [e];
    StaysPresent(Run(l', [e]), h, q.LedgerKey());
  }

  /** Visit n reads the clock in order, and the next one begins no earlier than it asked for. */
  ghost predicate Unhurried(l: Ledger, q: Quota, plan: Plan, n: nat) {
    var c, r := plan(n).clock, ResultOf(l, q, plan, n);
    && plan(n).Env().Fair() && c.sync <= c.due <= c.until
    && (r.Requeue? ==> plan(n + 1).clock.sync >= c.until + r.after)
  }

  ghost predicate UnhurriedFrom(l: Ledger, q: Quota, plan: Plan, r: nat) {
    forall m: nat :: r <= m ==> Unhurried(l, q, plan, m)
  }

  /** The deadline visit n installs is not ahead of it. */
  ghost predicate Passed(l: Ledger, q: Quota, plan: Plan, n: nat) {
    var d := StatusBefore(l, q, plan, n).nextRenewal;
    d.Some? && d.value <= plan(n).clock.sync
  }

  lemma PassedNext(l: Ledger, q: Quota, plan: Plan, n: nat)
    requires Unhurried(l, q, plan, n) && (Passed(l, q, plan, n) || Renews(l, q, plan, n))
    ensures Passed(l, q, plan, n + 1)
  {
    hide StatusBefore, ResultOf, NextRenewal;
    OneVisit(l, q, plan, n, StatusBefore(l, q, plan, n).nextRenewal.value);
  }

  lemma {:induction false} PassedAfter(l: Ledger, q: Quota, plan: Plan, r: nat, n: nat)
    requires r < n && Renews(l, q, plan, r) && UnhurriedFrom(l, q, plan, r)
    ensures Passed(l, q, plan, n)
    decreases n
  {
    hide Unhurried, StatusBefore, ResultOf, Renews, Passed;
    if r + 1 < n {
      PassedAfter(l, q, plan, r, n - 1);
    }
    PassedNext(l, q, plan, n - 1);
  }

  /** Renewing writes the new deadline to the status only; the entry keeps the passed one until
      the next Sync, and a reconcile at the requeue time finds the new one passed as well. So
      once a quota has been renewed, reconciles that come no earlier than asked for never let
      it be enforced again: after the renewal, in every later visit and between visits, every
      Check that reads the clock later than the last Sync did answers Active, whatever has been
      spent. */
  lemma NotEnforcedOnRequeuesAlone(l: Ledger, q: Quota, plan: Plan, r: nat, n: nat, h: seq<Event>, now: Time)
    requires r <= n && Renews(l, q, plan, r) && UnhurriedFrom(l, q, plan, r) && NoSync(h, q.LedgerKey())
    requires now > if r == n then plan(n).clock.due else plan(n).clock.sync
    ensures CheckKey(AfterSync(l, q, plan, n, h), q.LedgerKey(), now) == Active
  {
    if r < n {
      PassedAfter(l, q, plan, r, n);
    }
    DeadlineInForce(l, q, plan, n, StatusBefore(l, q, plan, n).nextRenewal.value, h, now);
  }

  // ---------------------------------------------------------------- a schedule on requeues alone

  /** A quota of one dollar, spent, whose status is due for renewal. */
  const SPENT_QUOTA := Quota("team", "quota", "agent", Some(1), 80, Hourly, Status("1", 0, 1, Exceeded, None, Some(-1)))

  /** A visit every two hours from time 0 on, and no spend at all. */
  function EveryTwoHours(n: nat): Visit {
    var t := n * 2 * HOUR;
    Visit(Readings(t, t, t, t, t, t), u => u, [], [], [])
  }

  const TWO_HOURLY: Plan := (n: nat) => EveryTwoHours(n)

  lemma {:induction false} TwoHourlyDeadlines(n: nat)
    ensures StatusBefore(map[], SPENT_QUOTA, TWO_HOURLY, n).nextRenewal == Some(if n == 0 then -1 else n * 2 * HOUR - HOUR)
  {
    hide Run, Reconciling;
    if n > 0 {
      hide StatusBefore, ResultOf;
      TwoHourlyDeadlines(n - 1);
      OneVisit(map[], SPENT_QUOTA, TWO_HOURLY, n - 1, if n == 1 then -1 else (n - 1) * 2 * HOUR - HOUR);
    }
  }

  /** There is such a schedule: an hourly quota reconciled every two hours is renewed each time,
      never earlier than asked for, and not enforced from the first renewal on. */
  lemma TwoHourlyVisitsNeverEnforce(n: nat, h: seq<Event>, now: Time)
    requires NoSync(h, SPENT_QUOTA.LedgerKey()) && now > n * 2 * HOUR
    ensures Renews(map[], SPENT_QUOTA, TWO_HOURLY, n) && UnhurriedFrom(map[], SPENT_QUOTA, TWO_HOURLY, 0)
    ensures CheckKey(AfterSync(map[], SPENT_QUOTA, TWO_HOURLY, n, h), SPENT_QUOTA.LedgerKey(), now) == Active
  {
    hide StatusBefore, ResultOf, AfterSync, CheckKey;
    forall m: nat ensures Unhurried(map[], SPENT_QUOTA, TWO_HOURLY, m) {
      TwoHourlyDeadlines(m);
      OneVisit(map[], SPENT_QUOTA, TWO_HOURLY, m, if m == 0 then -1 else m * 2 * HOUR - HOUR);
    }
    TwoHourlyDeadlines(0);
    TwoHourlyDeadlines(n);
    NotEnforcedOnRequeuesAlone(map[], SPENT_QUOTA, TWO_HOURLY, 0, n, h, now);
  }

  /** After a renewing visit, in particular, no spend is enforced before the next Sync. */
  lemma RenewalSuspendsEnforcement(l: Ledger, q: Quota, plan: Plan, n: nat, spends: seq<Event>, now: Time)
    requires plan(n).Env().Fair() && Renews(l, q, plan, n) && now >= plan(n).clock.due
    requires OnlySpendsFrom(spends, q.LedgerKey())
    ensures var (l', st) := Before(l, q, plan, n);
      CheckKey(Run(l', Reconciling(l', q.(status := st), plan(n).Env()).events + spends), q.LedgerKey(), now) == Active
  {
    hide Run, Reconciling, SyncStep, CheckKey;
    var h := ReturnIsAfterSync(l, q, plan, n);
    var (l', st) := Before(l, q, plan, n);
    var synced := [Synced(q.(status := st), plan(n).clock.sync)];
    RunConcat(l', Reconciling(l', q.(status := st), plan(n).Env()).events, spends);
    RunConcat(l', synced + h, spends);
    assert synced + h + spends == synced + (h + spends);
    DeadlineInForce(l, q, plan, n, st.nextRenewal.value, h + spends, now);
  }
}
