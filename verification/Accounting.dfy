/** What survives reconciles: the exact law for the durable spend, what it loses, and
    how renewal behaves while its status writes fail. */
module Accounting {
  import opened Common
  import opened QuotaApi
  import opened LedgerSpec
  import opened SpendRuns
  import opened ReconcileSpec
  import opened SpendFormat

  /** A status with a state and a readable amount; every status this program reports is one. */
  predicate Readable(st: Status) {
    !st.state.Unset? && Parse(st.spentUSD).Some?
  }

  function Amount(st: Status): real
    requires Readable(st)
  {
    Parse(st.spentUSD).value
  }

  // ---------------------------------------------------------------- one reconcile

  lemma SyncInstalls(l: Ledger, q: Quota, at: Time)
    requires Readable(q.status)
    ensures var l' := Run(l, [Synced(q, at)]);
      && q.LedgerKey() in l'
      && var a := l'[q.LedgerKey()];
         a.spentUSD == Amount(q.status) && a.spentTokens == q.status.spentTokens
         && a.runCount == q.status.runCount && a.state == q.status.state
         && a.maxUSD == BudgetUSD(q) && a.softLimitPct == SoftLimitOf(q)
  {
    hide Parse;
    assert [Synced(q, at)][..0] == [];
  }

  /** The ledger entry the reconcile reads: the status it synced plus the spends that landed since. */
  lemma EntryAtGet(l: Ledger, q: Quota, env: Env)
    requires Readable(q.status) && env.Fair()
    ensures var l', k, cs := Run(l, SyncEvents(q, env)), q.LedgerKey(), Charges(env.during);
      && k in l'
      && l'[k].spentUSD == Amount(q.status) + UsdOf(cs, k)
      && l'[k].spentTokens == q.status.spentTokens + TokensOf(cs, k)
      && l'[k].runCount == q.status.runCount + RunsOf(cs, k)
      && l'[k].maxUSD == BudgetUSD(q) && l'[k].softLimitPct == SoftLimitOf(q)
      && l'[k].state == if RunsOf(cs, k) > 0
           then ComputeState(BudgetUSD(q), SoftLimitOf(q), Amount(q.status) + UsdOf(cs, k)) else q.status.state
  {
    hide Parse, Run, ComputeState, UsdOf, TokensOf, RunsOf;
    var synced := [Synced(q, env.clock.sync)];
    SyncInstalls(l, q, env.clock.sync);
    RunConcat(l, synced, env.during);
    SpendConservation(Run(l, synced), env.during, q.LedgerKey());
  }

  /** The status writes that matter succeed and no renewal is due. */
  ghost predicate Reports(q: Quota, env: Env) {
    && env.Fair() && !Due(q.status, env.clock.due)
    && (q.status.nextRenewal.None? ==> env.first.Written?) && env.second.Written?
  }

  /** Exact accounting: the spend written is the spend read plus exactly the spends landing
      between this reconcile's Sync and its Get, printed with six decimals; tokens and runs are
      exact; spends landing anywhere else, and the ledger found, have no influence. */
  lemma ExactAccounting(l: Ledger, q: Quota, env: Env, stored: Status)
    requires Readable(q.status) && Reports(q, env)
    ensures var st, k, cs := Durable(stored, Reconciling(l, q, env).attempts), q.LedgerKey(), Charges(env.during);
      && st.spentUSD == Print(Amount(q.status) + UsdOf(cs, k))
      && st.spentTokens == q.status.spentTokens + TokensOf(cs, k)
      && st.runCount == q.status.runCount + RunsOf(cs, k)
      && st.state == (if RunsOf(cs, k) > 0
           then ComputeState(BudgetUSD(q), SoftLimitOf(q), Amount(q.status) + UsdOf(cs, k)) else q.status.state)
      && st.nextRenewal.Some? && (q.status.nextRenewal.Some? ==> st.nextRenewal == q.status.nextRenewal)
      && st.lastUpdated == Some(env.clock.updated)
      && Readable(st) && Amount(st) == Rounded(Amount(q.status) + UsdOf(cs, k))
  {
    hide Parse, Run, ComputeState, UsdOf, TokensOf, RunsOf, Print, Rounded, SyncEvents, NextRenewal;
    var x := Amount(q.status) + UsdOf(Charges(env.during), q.LedgerKey());
    EntryAtGet(l, q, env);
    ParsePrint(x);
    StateThresholds(BudgetUSD(q), SoftLimitOf(q), x);
    var attempts := Reconciling(l, q, env).attempts;
    assert attempts != [] && attempts[|attempts| - 1].outcome.Written?;
  }

  // ---------------------------------------------------------------- runs of reconciles

  /** Anything may happen to the ledger in the gap before a reconcile. */
  datatype Round = Round(gap: seq<Event>, env: Env)

  /** Ledger and durable status after the rounds, each reconcile reading the status stored. */
  function System(l: Ledger, q: Quota, rounds: seq<Round>): (Ledger, Status) {
    if rounds == [] then (l, q.status)
    else
      var (l', st) := System(l, q, rounds[..|rounds| - 1]);
      var r := rounds[|rounds| - 1];
      var met := Run(l', r.gap);
      var effect := Reconciling(met, q.(status := st), r.env);
      (Run(met, effect.events), Durable(st, effect.attempts))
  }

  /** What a status accounts for. */
  datatype Tally = Tally(usd: real, tokens: int, runs: int)

  function TallyOf(st: Status): Tally
    requires Readable(st)
  {
    Tally(Amount(st), st.spentTokens, st.runCount)
  }

  /** The report of the ledger entry gets through to the status. */
  predicate ReportWritten(st: Status, env: Env) {
    (st.nextRenewal.None? ==> env.first.Written?) && env.second.Written?
  }

  /** A tally grown by the charges of a key. */
  function Plus(t: Tally, cs: seq<Charge>, k: string): Tally {
    Tally(t.usd + UsdOf(cs, k), t.tokens + TokensOf(cs, k), t.runs + RunsOf(cs, k))
  }

  lemma PlusConcat(t: Tally, a: seq<Charge>, b: seq<Charge>, k: string)
    ensures Plus(t, a + b, k) == Plus(Plus(t, a, k), b, k)
    ensures Plus(t, [], k) == t
  {
    SumsConcat(a, b, k);
  }

  /** What one reconcile of a status adds: a written renewal starts again from nothing, a written
      report adds the spends of its Sync-to-Get window, anything unwritten adds nothing. */
  function Tallied(t: Tally, st: Status, env: Env, k: string): Tally {
    if Due(st, env.clock.due) then if env.first.Written? then Tally(0.0, 0, 0) else t
    else if ReportWritten(st, env) then Plus(t, OwnCharges(env.during, k), k)
    else t
  }

  const HALF_MICRO: real := 0.0000005

  /** Equal tokens and runs, and amounts that differ by at most half a micro-dollar n times. */
  predicate Close(a: Tally, b: Tally, n: nat) {
    && a.tokens == b.tokens && a.runs == b.runs
    && -HALF_MICRO * n as real <= a.usd - b.usd <= HALF_MICRO * n as real
  }

  lemma ReportTally(l: Ledger, q: Quota, env: Env)
    requires Readable(q.status) && Reports(q, env)
    ensures var st, k := Durable(q.status, Reconciling(l, q, env).attempts), q.LedgerKey();
      Readable(st) && Close(TallyOf(st), Plus(TallyOf(q.status), OwnCharges(env.during, k), k), 1)
  {
    hide Parse, Run, Reconciling, Durable, UsdOf, TokensOf, RunsOf, Rounded, Print, ComputeState, Amount, Readable,
      OwnCharges, SpentCharges;
    ExactAccounting(l, q, env, q.status);
    ParsePrint(Amount(q.status) + UsdOf(Charges(env.during), q.LedgerKey()));
    SpentOfSpends(env.during);
    OwnIsShare(env.during, q.LedgerKey());
  }

  lemma RoundTally(l: Ledger, q: Quota, env: Env)
    requires Readable(q.status) && env.Fair()
    ensures var st := Durable(q.status, Reconciling(l, q, env).attempts);
      Readable(st) && Close(TallyOf(st), Tallied(TallyOf(q.status), q.status, env, q.LedgerKey()), 1)
  {
    hide Readable, Reconciling, Durable, Plus, TallyOf;
    if Due(q.status, env.clock.due) {
      RenewalTally(l, q, env);
    } else if ReportWritten(q.status, env) {
      ReportTally(l, q, env);
    } else {
      UnwrittenReport(l, q, env);
    }
  }

  lemma RenewalTally(l: Ledger, q: Quota, env: Env)
    requires Readable(q.status) && Due(q.status, env.clock.due)
    ensures var st := Durable(q.status, Reconciling(l, q, env).attempts);
      if env.first.Written? then Readable(st) && TallyOf(st) == Tally(0.0, 0, 0) else st == q.status
  {
    hide Parse, NextRenewal;
    if env.first.Written? {
      SuccessfulRenewal(l, q, env, q.status);
      ParseZero();
    } else {
      DurableFailed(q.status, Renewing(q, env).attempts[0]);
    }
  }

  lemma {:induction false} NothingWritten(stored: Status, attempts: seq<Attempt>)
    requires forall i :: 0 <= i < |attempts| ==> !attempts[i].outcome.Written?
    ensures Durable(stored, attempts) == stored
  {
    if attempts != [] {
      NothingWritten(stored, attempts[..|attempts| - 1]);
    }
  }

  lemma OnlyFirstWritten(stored: Status, a: Attempt, rest: seq<Attempt>)
    requires a.outcome.Written? && forall i :: 0 <= i < |rest| ==> !rest[i].outcome.Written?
    ensures |rest| <= 1 ==> Durable(stored, [a] + rest) == a.status
  {
    if |rest| == 1 {
      assert ([a] + rest)[..1] == [a];
    }
  }

  lemma UnwrittenReport(l: Ledger, q: Quota, env: Env)
    requires Readable(q.status) && !Due(q.status, env.clock.due) && !ReportWritten(q.status, env)
    ensures var st := Durable(q.status, Reconciling(l, q, env).attempts);
      Readable(st) && TallyOf(st) == TallyOf(q.status) && st.state == q.status.state
      && (q.status.nextRenewal.Some? ==> st == q.status)
  {
    hide Parse, Run, Reported, NextRenewal, SyncEvents, Durable;
    var attempts := Reconciling(l, q, env).attempts;
    if q.status.nextRenewal.Some? || !env.first.Written? {
      NothingWritten(q.status, attempts);
    } else {
      assert attempts == [attempts[0]] + attempts[1..];
      OnlyFirstWritten(q.status, attempts[0], attempts[1..]);
    }
  }

  /** What the durable status accounts for after the rounds. */
  function Accounted(l: Ledger, q: Quota, rounds: seq<Round>): Tally
    requires Readable(q.status)
  {
    if rounds == [] then TallyOf(q.status)
    else
      var init, r := rounds[..|rounds| - 1], rounds[|rounds| - 1];
      Tallied(Accounted(l, q, init), System(l, q, init).1, r.env, q.LedgerKey())
  }

  lemma CloseNext(a: Tally, b: Tally, c: Tally, n: nat, st: Status, env: Env, k: string)
    requires Close(a, b, n) && Close(c, Tallied(a, st, env, k), 1)
    ensures Close(c, Tallied(b, st, env, k), n + 1)
  {
    hide Due, ReportWritten, UsdOf, TokensOf, RunsOf;
    assert HALF_MICRO * (n + 1) as real == HALF_MICRO * n as real + HALF_MICRO;
  }

  /** Durable spend over any run of reconciles, renewals and failing writes included: the initial
      value plus the spends landing in the Sync-to-Get windows of the reconciles whose report was
      written, counted from the last written renewal on; tokens and runs exactly, the amount up
      to half a micro-dollar per reconcile. */
  lemma {:induction false} DurableTally(l: Ledger, q: Quota, rounds: seq<Round>)
    requires Readable(q.status) && forall i :: 0 <= i < |rounds| ==> rounds[i].env.Fair()
    ensures var st := System(l, q, rounds).1;
      Readable(st) && Close(TallyOf(st), Accounted(l, q, rounds), |rounds|)
  {
    if rounds != [] {
      hide Run, Readable, Reconciling, Durable, TallyOf, Tallied, Close;
      var init, r := rounds[..|rounds| - 1], rounds[|rounds| - 1];
      DurableTally(l, q, init);
      var (l', st) := System(l, q, init);
      RoundTally(Run(l', r.gap), q.(status := st), r.env);
      CloseNext(TallyOf(st), Accounted(l, q, init), TallyOf(System(l, q, rounds).1), |init|, st, r.env, q.LedgerKey());
    }
  }

  // ---------------------------------------------------------------- runs before the deadline

  /** Every reconcile happens by the deadline; its status write may end as it will. */
  ghost predicate RenewalFree(rounds: seq<Round>, deadline: Time) {
    forall i :: 0 <= i < |rounds| ==> rounds[i].env.Fair() && rounds[i].env.clock.due <= deadline
  }

  /** The spends of the key landing in the Sync-to-Get window of a reconcile whose write succeeds. */
  function KeptCharges(r: Round, k: string): seq<Charge> {
    if r.env.second.Written? then OwnCharges(r.env.during, k) else []
  }

  function WindowCharges(rounds: seq<Round>, k: string): seq<Charge> {
    if rounds == [] then []
    else WindowCharges(rounds[..|rounds| - 1], k) + KeptCharges(rounds[|rounds| - 1], k)
  }

  lemma {:induction false} DeadlineKept(l: Ledger, q: Quota, rounds: seq<Round>, deadline: Time)
    requires Readable(q.status) && q.status.nextRenewal == Some(deadline) && RenewalFree(rounds, deadline)
    ensures var st := System(l, q, rounds).1; Readable(st) && st.nextRenewal == Some(deadline)
  {
    if rounds != [] {
      hide Run, Readable, Reconciling, Durable, UsdOf, TokensOf, RunsOf, Amount, TallyOf;
      var init, r := rounds[..|rounds| - 1], rounds[|rounds| - 1];
      DeadlineKept(l, q, init, deadline);
      var (l', st) := System(l, q, init);
      if r.env.second.Written? {
        ExactAccounting(Run(l', r.gap), q.(status := st), r.env, st);
      } else {
        UnwrittenReport(Run(l', r.gap), q.(status := st), r.env);
      }
    }
  }

  lemma {:induction false} AccountedBeforeDeadline(l: Ledger, q: Quota, rounds: seq<Round>, deadline: Time)
    requires Readable(q.status) && q.status.nextRenewal == Some(deadline) && RenewalFree(rounds, deadline)
    ensures var k := q.LedgerKey();
      Accounted(l, q, rounds) == Plus(TallyOf(q.status), WindowCharges(rounds, k), k)
  {
    hide System, Readable, TallyOf, Plus, OwnCharges;
    var k := q.LedgerKey();
    if rounds != [] {
      var init, r := rounds[..|rounds| - 1], rounds[|rounds| - 1];
      AccountedBeforeDeadline(l, q, init, deadline);
      DeadlineKept(l, q, init, deadline);
      PlusConcat(TallyOf(q.status), WindowCharges(init, k), KeptCharges(r, k), k);
      PlusConcat(Accounted(l, q, init), [], [], k);
    } else {
      PlusConcat(TallyOf(q.status), [], [], k);
    }
  }

  /** Up to the deadline the durable spend is the initial value plus the spends landing inside the
      Sync-to-Get windows of the reconciles whose write succeeds, up to half a micro-dollar per
      reconcile; tokens and runs exactly. */
  lemma DurableSpend(l: Ledger, q: Quota, rounds: seq<Round>, deadline: Time)
    requires Readable(q.status) && q.status.nextRenewal == Some(deadline) && RenewalFree(rounds, deadline)
    ensures var st, k := System(l, q, rounds).1, q.LedgerKey();
      var inside := WindowCharges(rounds, k);
      && Readable(st) && st.nextRenewal == Some(deadline)
      && -HALF_MICRO * |rounds| as real <= Amount(st) - Amount(q.status) - UsdOf(inside, k)
           <= HALF_MICRO * |rounds| as real
      && st.spentTokens == q.status.spentTokens + TokensOf(inside, k)
      && st.runCount == q.status.runCount + RunsOf(inside, k)
  {
    hide System, Accounted, Readable, WindowCharges, Amount, UsdOf, TokensOf, RunsOf;
    DurableTally(l, q, rounds);
    DeadlineKept(l, q, rounds, deadline);
    AccountedBeforeDeadline(l, q, rounds, deadline);
  }

  predicate WholeMicros(x: real) {
    x >= 0.0 && Rounded(x) == x
  }

  lemma WholeMicrosAdd(x: real, y: real)
    requires WholeMicros(x) && WholeMicros(y)
    ensures WholeMicros(x + y)
  {
    var m, n := RoundMicros(x), RoundMicros(y);
    assert FromMicros(m) + FromMicros(n) == FromMicros(m + n);
    RoundWholeMicros(m + n);
  }

  lemma NoCharges(k: string)
    ensures UsdOf([], k) == 0.0 && TokensOf([], k) == 0 && RunsOf([], k) == 0
  {
  }

  lemma ExactRound(l: Ledger, q: Quota, r: Round, deadline: Time)
    requires Readable(q.status) && q.status.nextRenewal == Some(deadline)
    requires r.env.Fair() && r.env.clock.due <= deadline
    requires WholeMicros(Amount(q.status)) && WholeMicros(UsdOf(KeptCharges(r, q.LedgerKey()), q.LedgerKey()))
    ensures var st := Durable(q.status, Reconciling(l, q, r.env).attempts);
      && Readable(st) && st.nextRenewal == Some(deadline) && WholeMicros(Amount(st))
      && Amount(st) == Amount(q.status) + UsdOf(KeptCharges(r, q.LedgerKey()), q.LedgerKey())
  {
    hide Parse, Run, UsdOf, TokensOf, RunsOf, Rounded, Readable, Reconciling, Durable, RoundMicros, Amount,
      OwnCharges, SpentCharges;
    NoCharges(q.LedgerKey());
    if r.env.second.Written? {
      ExactAccounting(l, q, r.env, q.status);
      SpentOfSpends(r.env.during);
      OwnIsShare(r.env.during, q.LedgerKey());
      WholeMicrosAdd(Amount(q.status), UsdOf(Charges(r.env.during), q.LedgerKey()));
    } else {
      UnwrittenReport(l, q, r.env);
    }
  }

  /** When the amounts are whole micro-dollars nothing is lost to rounding. */
  lemma {:induction false} DurableSpendExact(l: Ledger, q: Quota, rounds: seq<Round>, deadline: Time)
    requires Readable(q.status) && q.status.nextRenewal == Some(deadline) && RenewalFree(rounds, deadline)
    requires WholeMicros(Amount(q.status))
    requires forall i :: 0 <= i < |rounds| ==> WholeMicros(UsdOf(KeptCharges(rounds[i], q.LedgerKey()), q.LedgerKey()))
    ensures var st, k := System(l, q, rounds).1, q.LedgerKey();
      && Readable(st) && st.nextRenewal == Some(deadline)
      && Amount(st) == Amount(q.status) + UsdOf(WindowCharges(rounds, k), k) && WholeMicros(Amount(st))
  {
    hide Run, UsdOf, WholeMicros, Readable, Reconciling, Durable, Amount, KeptCharges;
    NoCharges(q.LedgerKey());
    if rounds != [] {
      var init, r, k := rounds[..|rounds| - 1], rounds[|rounds| - 1], q.LedgerKey();
      DurableSpendExact(l, q, init, deadline);
      var (l', st) := System(l, q, init);
      ExactRound(Run(l', r.gap), q.(status := st), r, deadline);
      SumsConcat(WindowCharges(init, k), KeptCharges(r, k), k);
    }
  }

  /** The spends of the key that no written report could see: in the gap before a reconcile, in
      the window of one whose write fails, or between Get and return. */
  function MissedCharges(r: Round, k: string): seq<Charge> {
    OwnCharges(r.gap, k) + ((if r.env.second.Written? then [] else OwnCharges(r.env.during, k)) + OwnCharges(r.env.after, k))
  }

  function OutsideCharges(rounds: seq<Round>, k: string): seq<Charge> {
    if rounds == [] then []
    else OutsideCharges(rounds[..|rounds| - 1], k) + MissedCharges(rounds[|rounds| - 1], k)
  }

  ghost predicate NoSpendMissed(r: Round, k: string) {
    && NoSpendFrom(r.gap, k) && NoSpendFrom(r.env.after, k)
    && (!r.env.second.Written? ==> NoSpendFrom(r.env.during, k))
  }

  ghost predicate NoSpendOutside(rounds: seq<Round>, k: string) {
    forall i :: 0 <= i < |rounds| ==> NoSpendMissed(rounds[i], k)
  }

  lemma MissedRuns(r: Round, k: string)
    ensures RunsOf(MissedCharges(r, k), k) == 0 <==> NoSpendMissed(r, k)
  {
    hide RunsOf, OwnCharges, NoSpendFrom;
    NoCharges(k);
    RunsOfOwn(r.gap, k);
    RunsOfOwn(r.env.during, k);
    RunsOfOwn(r.env.after, k);
    var window := if r.env.second.Written? then [] else OwnCharges(r.env.during, k);
    SumsConcat(window, OwnCharges(r.env.after, k), k);
    SumsConcat(OwnCharges(r.gap, k), window + OwnCharges(r.env.after, k), k);
  }

  lemma NoSpendOutsideSnoc(rounds: seq<Round>, k: string)
    requires rounds != []
    ensures NoSpendOutside(rounds, k) <==>
      NoSpendOutside(rounds[..|rounds| - 1], k) && NoSpendMissed(rounds[|rounds| - 1], k)
  {
    hide NoSpendMissed;
  }

  lemma {:induction false} OutsideRuns(rounds: seq<Round>, k: string)
    ensures RunsOf(OutsideCharges(rounds, k), k) == 0 <==> NoSpendOutside(rounds, k)
  {
    NoCharges(k);
    if rounds != [] {
      hide RunsOf, MissedCharges, NoSpendOutside;
      var init, r := rounds[..|rounds| - 1], rounds[|rounds| - 1];
      OutsideRuns(init, k);
      MissedRuns(r, k);
      SumsConcat(OutsideCharges(init, k), MissedCharges(r, k), k);
      NoSpendOutsideSnoc(rounds, k);
    }
  }

  /** A charge of the key that carries tokens, or costs money. */
  ghost predicate Counts(c: Charge, k: string) { c.LedgerKey() == k && c.tokens > 0 }
  ghost predicate Costs(c: Charge, k: string) { c.LedgerKey() == k && c.usd > 0.0 }

  lemma {:induction false} NoTokens(cs: seq<Charge>, k: string)
    requires forall c :: c in cs ==> c.tokens >= 0
    ensures TokensOf(cs, k) >= 0
    ensures TokensOf(cs, k) == 0 <==> forall c :: c in cs ==> !Counts(c, k)
  {
    if cs != [] {
      NoTokens(cs[1..], k);
      if TokensOf(cs, k) == 0 {
        forall c | c in cs ensures !Counts(c, k) {
          assert c == cs[0] || c in cs[1..];
        }
      } else if TokensOf(cs[1..], k) == 0 {
        assert Counts(cs[0], k);
      }
    }
  }

  lemma {:induction false} NoCost(cs: seq<Charge>, k: string)
    requires forall c :: c in cs ==> c.usd >= 0.0
    ensures UsdOf(cs, k) >= 0.0
    ensures UsdOf(cs, k) == 0.0 <==> forall c :: c in cs ==> !Costs(c, k)
  {
    if cs != [] {
      NoCost(cs[1..], k);
      if UsdOf(cs, k) == 0.0 {
        forall c | c in cs ensures !Costs(c, k) {
          assert c == cs[0] || c in cs[1..];
        }
      } else if UsdOf(cs[1..], k) == 0.0 {
        assert Costs(cs[0], k);
      }
    }
  }

  /** What reconciles do not conserve. The durable run count accounts for every spend of a run
      exactly when each landed in the Sync-to-Get window of a reconcile whose write succeeded; the
      tokens, when those that did not carried none; and the durable amount misses what those cost,
      to half a micro-dollar per reconcile. Whatever else happens to the ledger in the gaps makes no difference. */
  lemma ConservedExactlyWhen(l: Ledger, q: Quota, rounds: seq<Round>, deadline: Time)
    requires Readable(q.status) && q.status.nextRenewal == Some(deadline) && RenewalFree(rounds, deadline)
    ensures var st, k := System(l, q, rounds).1, q.LedgerKey();
      var inside, outside := WindowCharges(rounds, k), OutsideCharges(rounds, k);
      && (NoSpendOutside(rounds, k) <==>
            st.runCount == q.status.runCount + RunsOf(inside, k) + RunsOf(outside, k))
      && ((forall c :: c in outside ==> c.tokens >= 0) ==>
            ((forall c :: c in outside ==> !Counts(c, k)) <==>
               st.spentTokens == q.status.spentTokens + TokensOf(inside, k) + TokensOf(outside, k)))
      && Readable(st)
      && var missing := Amount(q.status) + UsdOf(inside, k) + UsdOf(outside, k) - Amount(st);
         UsdOf(outside, k) - HALF_MICRO * |rounds| as real <= missing
           <= UsdOf(outside, k) + HALF_MICRO * |rounds| as real
  {
    hide System, RunsOf, TokensOf, UsdOf, Readable, RenewalFree, OutsideCharges, WindowCharges;
    DurableSpend(l, q, rounds, deadline);
    OutsideRuns(rounds, q.LedgerKey());
    var outside := OutsideCharges(rounds, q.LedgerKey());
    if forall c :: c in outside ==> c.tokens >= 0 {
      NoTokens(outside, q.LedgerKey());
    }
  }

  /** In whole micro-dollars the amount is conserved exactly when every spend outside the
      windows was free. */
  lemma AmountConservedExactlyWhen(l: Ledger, q: Quota, rounds: seq<Round>, deadline: Time)
    requires Readable(q.status) && q.status.nextRenewal == Some(deadline) && RenewalFree(rounds, deadline)
    requires WholeMicros(Amount(q.status))
    requires forall i :: 0 <= i < |rounds| ==> WholeMicros(UsdOf(KeptCharges(rounds[i], q.LedgerKey()), q.LedgerKey()))
    requires forall c :: c in OutsideCharges(rounds, q.LedgerKey()) ==> c.usd >= 0.0
    ensures var st, k := System(l, q, rounds).1, q.LedgerKey();
      var inside, outside := WindowCharges(rounds, k), OutsideCharges(rounds, k);
      && Readable(st)
      && ((forall c :: c in outside ==> !Costs(c, k)) <==>
            Amount(st) == Amount(q.status) + UsdOf(inside, k) + UsdOf(outside, k))
  {
    hide System, UsdOf, Readable, RenewalFree, OutsideCharges, WindowCharges, WholeMicros, Parse;
    DurableSpendExact(l, q, rounds, deadline);
    NoCost(OutsideCharges(rounds, q.LedgerKey()), q.LedgerKey());
  }

  /** A round before the deadline with no spend in its gap or window. */
  function QuietRound(at: Time, after: seq<Event>): Round {
    Round([], Env(Readings(at, at, at, at, at, at), t => t, [], after, Written, Written))
  }

  lemma QuietStatus(l: Ledger, q: Quota, deadline: Time, at: Time, after: seq<Event>)
    requires Readable(q.status) && q.status.nextRenewal == Some(deadline) && at <= deadline && OnlySpends(after)
    ensures var st := System(l, q, [QuietRound(at, after)]).1;
      && Readable(st) && Amount(st) == Rounded(Amount(q.status)) && st.runCount == q.status.runCount
      && st.state == q.status.state && st.nextRenewal == q.status.nextRenewal
  {
    hide Parse, Run, ComputeState, UsdOf, TokensOf, Print, Rounded, Readable, Amount, Reconciling, Durable;
    var r := QuietRound(at, after);
    SystemOfOne(l, q, r);
    assert Charges(r.env.during) == [];
    ExactAccounting(l, q, r.env, q.status);
    NoCharges(q.LedgerKey());
  }

  /** The ledger, too, is as if only the spends after Get had landed since the status. */
  lemma QuietLedger(l: Ledger, q: Quota, deadline: Time, at: Time, after: seq<Event>)
    requires Readable(q.status) && q.status.nextRenewal == Some(deadline) && at <= deadline && OnlySpends(after)
    ensures var k, l', cs := q.LedgerKey(), System(l, q, [QuietRound(at, after)]).0, Charges(after);
      && k in l' && l'[k].spentUSD == Amount(q.status) + UsdOf(cs, k)
      && l'[k].runCount == q.status.runCount + RunsOf(cs, k)
      && l'[k].state == if RunsOf(cs, k) > 0
           then ComputeState(BudgetUSD(q), SoftLimitOf(q), l'[k].spentUSD) else q.status.state
  {
    hide Parse, Run, ComputeState, UsdOf, TokensOf, Readable, Amount, Durable, SyncEvents, Reported, WithDeadline;
    var r := QuietRound(at, after);
    SystemOfOne(l, q, r);
    assert Charges(r.env.during) == [];
    EntryAtGet(l, q, r.env);
    NoCharges(q.LedgerKey());
    RunConcat(l, SyncEvents(q, r.env), after);
    SpendConservation(Run(l, SyncEvents(q, r.env)), after, q.LedgerKey());
  }

  lemma SystemOfOne(l: Ledger, q: Quota, r: Round)
    requires r.gap == []
    ensures var effect := Reconciling(l, q, r.env);
      System(l, q, [r]) == (Run(l, effect.events), Durable(q.status, effect.attempts))
  {
    hide Reconciling, Durable;
    assert [r][..0] == [];
  }

  lemma SystemSnoc(l: Ledger, q: Quota, rounds: seq<Round>, r: Round)
    ensures var (l', st) := System(l, q, rounds);
      System(l, q, rounds + [r]) == System(l', q.(status := st), [r])
  {
    hide Reconciling, Durable, Run;
    assert (rounds + [r])[..|rounds|] == rounds;
    assert [r][..0] == [];
  }

  /** A run that loses a spend: recorded between Get and return it is in the ledger after the
      first reconcile, where it counts against the budget, and after the second one it is
      neither in the status nor in the ledger. */
  lemma SpendAfterGetIsLost(l: Ledger, q: Quota, deadline: Time, at: Time, c: Charge)
    requires Readable(q.status) && q.status.nextRenewal == Some(deadline) && at <= deadline
    requires c.LedgerKey() == q.LedgerKey()
    ensures var k, one, two := q.LedgerKey(), QuietRound(at, [Spent(c, at)]), QuietRound(at, []);
      var (l1, st1) := System(l, q, [one]); var (l2, st2) := System(l, q, [one] + [two]);
      && k in l1 && l1[k].spentUSD == Amount(q.status) + c.usd && l1[k].runCount == q.status.runCount + 1
      && l1[k].state == ComputeState(BudgetUSD(q), SoftLimitOf(q), Amount(q.status) + c.usd)
      && k in l2 && l2[k].spentUSD == Rounded(Amount(q.status)) && l2[k].runCount == q.status.runCount
      && l2[k].state == q.status.state && st2.runCount == q.status.runCount
  {
    hide Parse, System, ComputeState, Rounded, Readable, Amount;
    var k, one, two := q.LedgerKey(), QuietRound(at, [Spent(c, at)]), QuietRound(at, []);
    var (l1, st1) := System(l, q, [one]);
    QuietStatus(l, q, deadline, at, [Spent(c, at)]);
    QuietLedger(l, q, deadline, at, [Spent(c, at)]);
    assert Charges([Spent(c, at)]) == [c] && Charges([]) == [];
    assert UsdOf([c], k) == c.usd && RunsOf([c], k) == 1;
    SystemSnoc(l, q, [one], two);
    QuietStatus(l1, q.(status := st1), deadline, at, []);
    QuietLedger(l1, q.(status := st1), deadline, at, []);
  }

  /** Two reconciles before the deadline with no spend in their windows leave the same spend,
      tokens, runs, state and deadline as one, whatever happened in between. */
  lemma QuiescentReconciles(l: Ledger, l2: Ledger, q: Quota, one: Env, two: Env)
    requires Readable(q.status) && Amount(q.status) >= 0.0
    requires Reports(q, one) && RunsOf(Charges(one.during), q.LedgerKey()) == 0
    requires two.Fair() && two.second.Written? && RunsOf(Charges(two.during), q.LedgerKey()) == 0
    requires var st := Durable(q.status, Reconciling(l, q, one).attempts); !Due(st, two.clock.due)
    ensures var first := Durable(q.status, Reconciling(l, q, one).attempts);
      var second := Durable(first, Reconciling(l2, q.(status := first), two).attempts);
      second.(lastUpdated := first.lastUpdated) == first
  {
    hide Parse, Run, Print, Rounded, Reconciling, Durable, ComputeState, NextRenewal;
    var k := q.LedgerKey();
    NoRunsNoSpend(Charges(one.during), k);
    NoRunsNoSpend(Charges(two.during), k);
    ExactAccounting(l, q, one, q.status);
    var first := Durable(q.status, Reconciling(l, q, one).attempts);
    ExactAccounting(l2, q.(status := first), two, first);
    PrintParsePrint(Amount(q.status));
  }

  lemma {:induction false} NoRunsNoSpend(cs: seq<Charge>, k: string)
    requires RunsOf(cs, k) == 0
    ensures UsdOf(cs, k) == 0.0 && TokensOf(cs, k) == 0
  {
    if cs != [] {
      NoRunsNoSpend(cs[1..], k);
    }
  }

  /** Deleting a TokenQuota removes the entry of the ServiceAccount that bears the quota's own
      name; the quota's entry goes exactly when the two names agree. */
  lemma DeletionClearsExactlyWhen(l: Ledger, namespace: string, name: string, target: string, env: Env)
    requires Key(namespace, target) in l
    ensures Key(namespace, target) !in Run(l, Reconcile(l, namespace, name, NotFound, env).events)
       <==> name == target
  {
    var e := Deleted(namespace, name);
    RunSnoc(l, [], e);
    assert [] + [e] == [e];
    if Key(namespace, target) == Key(namespace, name) {
      assert target == Key(namespace, target)[|namespace| + 1..];
      assert name == Key(namespace, name)[|namespace| + 1..];
    }
  }

  // ---------------------------------------------------------------- renewal under failures

  /** Every Sync of the key in the log carries a deadline, and none later than d. */
  ghost predicate DeadlinesUpTo(h: seq<Event>, k: string, d: Time) {
    forall i :: 0 <= i < |h| && h[i].Synced? && h[i].LedgerKey() == k ==>
      h[i].quota.status.nextRenewal.Some? && h[i].quota.status.nextRenewal.value <= d
  }

  /** Past the deadline, Check answers Active until a Sync installs a later one. */
  lemma {:induction false} FailOpen(l: Ledger, h: seq<Event>, k: string, d: Time, now: Time)
    requires k in l ==> l[k].nextRenewal.Some? && l[k].nextRenewal.value <= d
    requires DeadlinesUpTo(h, k, d) && now > d
    ensures var l' := Run(l, h);
      && (k in l' ==> l'[k].nextRenewal.Some? && l'[k].nextRenewal.value <= d)
      && CheckKey(l', k, now) == Active
  {
    hide Parse, ComputeState;
    if h != [] {
      FailOpen(l, h[..|h| - 1], k, d, now);
    }
  }

  /** The ledger operations of renewals whose status write fails, and of the gaps between them. */
  function FailingEvents(q: Quota, rounds: seq<Round>): seq<Event> {
    if rounds == [] then []
    else
      var r := rounds[|rounds| - 1];
      FailingEvents(q, rounds[..|rounds| - 1]) + (r.gap + Renewing(q, r.env).events)
  }

  /** Every renewal is due and its status write fails; anything may happen in the gaps. */
  ghost predicate AllFail(rounds: seq<Round>, deadline: Time) {
    forall i :: 0 <= i < |rounds| ==>
      rounds[i].env.Fair() && rounds[i].env.clock.due > deadline && !rounds[i].env.first.Written?
  }

  /** No gap syncs the key with a later deadline. */
  ghost predicate GapsUpTo(rounds: seq<Round>, k: string, deadline: Time) {
    forall i :: 0 <= i < |rounds| ==> DeadlinesUpTo(rounds[i].gap, k, deadline)
  }

  lemma FailingRound(l: Ledger, q: Quota, env: Env, deadline: Time)
    requires q.status.nextRenewal == Some(deadline) && env.Fair()
    requires env.clock.due > deadline && !env.first.Written?
    ensures var effect := Reconciling(l, q, env);
      effect == Renewing(q, env) && Durable(q.status, effect.attempts) == q.status
    ensures DeadlinesUpTo(Renewing(q, env).events, q.LedgerKey(), deadline)
  {
    DurableFailed(q.status, Renewing(q, env).attempts[0]);
  }

  lemma DeadlinesConcat(g: seq<Event>, h: seq<Event>, k: string, d: Time)
    requires DeadlinesUpTo(g, k, d) && DeadlinesUpTo(h, k, d)
    ensures DeadlinesUpTo(g + h, k, d)
  {
  }

  lemma {:induction false} FailingRounds(l: Ledger, q: Quota, rounds: seq<Round>, deadline: Time)
    requires q.status.nextRenewal == Some(deadline) && AllFail(rounds, deadline)
    ensures System(l, q, rounds) == (Run(l, FailingEvents(q, rounds)), q.status)
  {
    if rounds != [] {
      hide Run, Renewing, Reconciling, Durable, DeadlinesUpTo;
      var init, r := rounds[..|rounds| - 1], rounds[|rounds| - 1];
      FailingRounds(l, q, init, deadline);
      var met := Run(Run(l, FailingEvents(q, init)), r.gap);
      FailingRound(met, q, r.env, deadline);
      assert q.(status := q.status) == q;
      var events := Renewing(q, r.env).events;
      RunConcat(l, FailingEvents(q, init), r.gap + events);
      RunConcat(Run(l, FailingEvents(q, init)), r.gap, events);
    }
  }

  lemma {:induction false} FailingDeadlines(q: Quota, rounds: seq<Round>, deadline: Time)
    requires q.status.nextRenewal == Some(deadline) && AllFail(rounds, deadline)
    requires GapsUpTo(rounds, q.LedgerKey(), deadline)
    ensures DeadlinesUpTo(FailingEvents(q, rounds), q.LedgerKey(), deadline)
  {
    if rounds != [] {
      hide Renewing, Reconciling, Durable, DeadlinesUpTo;
      var init, r, k := rounds[..|rounds| - 1], rounds[|rounds| - 1], q.LedgerKey();
      FailingDeadlines(q, init, deadline);
      FailingRound(map[], q, r.env, deadline);
      DeadlinesConcat(r.gap, Renewing(q, r.env).events, k, deadline);
      DeadlinesConcat(FailingEvents(q, init), r.gap + Renewing(q, r.env).events, k, deadline);
    }
  }

  lemma DurableFailed(st: Status, a: Attempt)
    requires !a.outcome.Written?
    ensures Durable(st, [a]) == st
  {
    assert [a][..0] == [];
  }

  /** Once the clock has passed an entry's deadline, then through any number of renewals whose
      status write fails, and whatever else happens in between short of a Sync of the key with a
      later deadline, at every point of the interleaving Check answers Active and the durable
      status stays what it was. */
  lemma FailOpenThroughFailures(l: Ledger, q: Quota, rounds: seq<Round>, deadline: Time, point: nat, now: Time)
    requires q.status.nextRenewal == Some(deadline) && AllFail(rounds, deadline) && now > deadline
    requires GapsUpTo(rounds, q.LedgerKey(), deadline)
    requires q.LedgerKey() in l ==> l[q.LedgerKey()].nextRenewal == Some(deadline)
    requires point <= |FailingEvents(q, rounds)|
    ensures System(l, q, rounds) == (Run(l, FailingEvents(q, rounds)), q.status)
    ensures CheckKey(Run(l, FailingEvents(q, rounds)[..point]), q.LedgerKey(), now) == Active
  {
    FailingRounds(l, q, rounds, deadline);
    FailingDeadlines(q, rounds, deadline);
    FailOpen(l, FailingEvents(q, rounds)[..point], q.LedgerKey(), deadline, now);
  }

  lemma SuccessfulRenewal(l: Ledger, q: Quota, env: Env, stored: Status)
    requires Due(q.status, env.clock.due) && env.first.Written?
    ensures Durable(stored, Reconciling(l, q, env).attempts)
         == RenewedStatus(q.status, NextRenewal(env.clock.next, q.interval, env.monthLater))
  {
    assert Renewing(q, env).attempts[0].outcome.Written?;
  }

  /** After any number of renewals whose write fails, and whatever happens in between, the first one whose write succeeds leaves
      the status zeroed and Active, with a deadline later than the reading it came from. */
  lemma FirstSuccessfulRenewal(l: Ledger, q: Quota, rounds: seq<Round>, success: Round, deadline: Time)
    requires q.status.nextRenewal == Some(deadline) && AllFail(rounds, deadline)
    requires success.env.clock.due > deadline && success.env.first.Written?
    requires q.interval.Monthly? ==> success.env.monthLater(success.env.clock.next) > success.env.clock.next
    ensures var st := System(l, q, rounds + [success]).1;
      && st == RenewedStatus(q.status, NextRenewal(success.env.clock.next, q.interval, success.env.monthLater))
      && Parse(st.spentUSD) == Some(0.0) && st.spentTokens == 0 && st.runCount == 0 && st.state == Active
      && st.nextRenewal.Some? && st.nextRenewal.value > success.env.clock.next
  {
    hide Parse, Run, Reconciling, Durable;
    assert (rounds + [success])[..|rounds|] == rounds;
    FailingRounds(l, q, rounds, deadline);
    SuccessfulRenewal(Run(System(l, q, rounds).0, success.gap), q.(status := q.status), success.env, q.status);
    ParseZero();
  }

  lemma ParseZero()
    ensures Parse("0") == Some(0.0)
  {
    assert DotAt("0") == 1;
    assert "0"[..1] == "0" && "0"[..0] == "";
    assert ParseDigits("") == Some(0);
    assert Value('0') == 0;
    assert ParseDigits("0") == Some(0);
  }
}
