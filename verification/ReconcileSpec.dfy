/** One reconcile of a TokenQuota as a value: the ledger operations it performs, with
    the spends that land between them, the status writes it attempts, and its result. */
module ReconcileSpec {
  import opened Common
  import opened QuotaApi
  import opened LedgerSpec
  import opened SpendRuns
  import SpendFormat

  datatype GetOutcome = NotFound | GetFailed | Found(quota: Quota)
  datatype WriteOutcome = Written | Conflict | Failed
  datatype Result = Done | Error | Requeue(after: int)
  datatype Attempt = Attempt(status: Status, outcome: WriteOutcome)

  /** The clock readings of one reconcile, in the order it takes them. */
  datatype Readings = Readings(sync: Time, due: Time, reset: Time, next: Time, updated: Time, until: Time)

  /** What one reconcile meets: its clock readings, the instant one calendar month later, the
      spends other goroutines land between Sync and the following ledger access and between
      that access and the return, and how its first and second status write end. */
  datatype Env = Env(
    clock: Readings,
    monthLater: Time -> Time,
    during: seq<Event>,
    after: seq<Event>,
    first: WriteOutcome,
    second: WriteOutcome)
  {
    ghost predicate Fair() { OnlySpends(during) && OnlySpends(after) }
  }

  datatype Effect = Effect(events: seq<Event>, attempts: seq<Attempt>, result: Result)

  const RECHECK: int := 5 * MINUTE

  function NextRenewal(now: Time, interval: RenewalInterval, monthLater: Time -> Time): Time {
    match interval
    case Hourly => now + HOUR
    case Daily => now + DAY
    case Monthly => monthLater(now)
  }

  predicate Due(st: Status, now: Time) {
    st.nextRenewal.Some? && now > st.nextRenewal.value
  }

  function RenewedStatus(st: Status, next: Time): Status {
    st.(spentUSD := "0", spentTokens := 0, runCount := 0, state := Active, nextRenewal := Some(next))
  }

  /** A status that lacks a deadline gets one, and Active if it lacks a state too. */
  function WithDeadline(st: Status, next: Time): Status {
    if st.nextRenewal.Some? then st
    else st.(nextRenewal := Some(next), state := if st.state.Unset? then Active else st.state)
  }

  function Reported(st: Status, a: Account, now: Time): Status {
    st.(spentUSD := SpendFormat.Print(a.spentUSD), spentTokens := a.spentTokens, runCount := a.runCount,
        state := a.state, lastUpdated := Some(now))
  }

  /** Look again in five minutes, or at the deadline if that is sooner and still ahead. */
  function RequeueAfter(deadline: Option<Time>, now: Time): int {
    if deadline.Some? && 0 < deadline.value - now < RECHECK then deadline.value - now else RECHECK
  }

  /** The ledger operations up to the one that follows Sync. */
  function SyncEvents(q: Quota, env: Env): seq<Event> {
    [Synced(q, env.clock.sync)] + env.during
  }

  function Renewing(q: Quota, env: Env): Effect {
    var next := NextRenewal(env.clock.next, q.interval, env.monthLater);
    Effect(SyncEvents(q, env) + [Zeroed(q.namespace, q.target, env.clock.reset)] + env.after,
           [Attempt(RenewedStatus(q.status, next), env.first)],
           if env.first.Written? then Requeue(next - env.clock.until) else Error)
  }

  function Reporting(l: Ledger, q: Quota, env: Env): Effect {
    var k, l' := q.LedgerKey(), Run(l, SyncEvents(q, env));
    var st := WithDeadline(q.status, NextRenewal(env.clock.next, q.interval, env.monthLater));
    var initial := if q.status.nextRenewal.None? then [Attempt(st, env.first)] else [];
    if q.status.nextRenewal.None? && !env.first.Written? then Effect(SyncEvents(q, env), initial, Error)
    else
      var reports := if k in l' then [Attempt(Reported(st, l'[k], env.clock.updated), env.second)] else [];
      Effect(SyncEvents(q, env) + env.after, initial + reports,
             if k in l' && env.second.Failed? then Error else Requeue(RequeueAfter(st.nextRenewal, env.clock.until)))
  }

  function Reconciling(l: Ledger, q: Quota, env: Env): Effect {
    if Due(q.status, env.clock.due) then Renewing(q, env) else Reporting(l, q, env)
  }

  function Reconcile(l: Ledger, namespace: string, name: string, read: GetOutcome, env: Env): Effect {
    match read
    case NotFound => Effect([Deleted(namespace, name)], [], Done)
    case GetFailed => Effect([], [], Error)
    case Found(q) => Reconciling(l, q, env)
  }

  /** The status the API server holds after the attempts: the last one written. */
  function Durable(stored: Status, attempts: seq<Attempt>): Status {
    if attempts == [] then stored
    else if attempts[|attempts| - 1].outcome.Written? then attempts[|attempts| - 1].status
    else Durable(stored, attempts[..|attempts| - 1])
  }
}
