/** What a quota enforces after a Sync: until its next one, and across reconciles. */
module Enforcement {
  import opened Common
  import opened QuotaApi
  import opened LedgerSpec
  import opened SpendRuns
  import opened ReconcileSpec
  import opened Accounting
  import opened Webhook
  import SpendFormat

  /** The quota's account right after its Sync. */
  function AtSync(l: Ledger, q: Quota, at: Time): Account {
    SyncStep(l, q, at)[q.LedgerKey()]
  }

  function AmountAfter(l: Ledger, q: Quota, at: Time, h: seq<Event>): real {
    AtSync(l, q, at).spentUSD + UsdOf(OwnCharges(h, q.LedgerKey()), q.LedgerKey())
  }

  /** Until the deadline and the next Sync, a pod is denied exactly when, without any spend, the
      status said Exceeded or Suspended, and from the first spend on, when the total has reached
      a positive budget. */
  lemma DeniedAfterSync(l: Ledger, q: Quota, at: Time, h: seq<Event>, now: Time)
    requires OnlySpendsFrom(h, q.LedgerKey()) && !Expired(AtSync(l, q, at), now)
    ensures Verdict(CheckKey(Run(SyncStep(l, q, at), h), q.LedgerKey(), now)) == Deny <==>
      if NoSpendFrom(h, q.LedgerKey()) then AtSync(l, q, at).state in {Exceeded, Suspended}
      else BudgetUSD(q) > 0.0 && AmountAfter(l, q, at, h) >= BudgetUSD(q)
  {
    hide ComputeState, UsdOf, TokensOf, RunsOf, OwnCharges, Run, NoSpendFrom;
    GrowthAmidOthers(SyncStep(l, q, at), h, q.LedgerKey());
    RunsOfOwn(h, q.LedgerKey());
    StateThresholds(BudgetUSD(q), SoftLimitOf(q), AmountAfter(l, q, at, h));
  }

  /** What a spend leaves after a Sync, in numbers: with a budget of b dollars and the soft limit
      at p percent, 80 unless the spec says otherwise, the key is Exceeded from b on, SoftLimit
      from p percent of b on, and Active below; without a positive budget always Active. */
  lemma StateAfterSync(l: Ledger, q: Quota, at: Time, h: seq<Event>)
    requires OnlySpendsFrom(h, q.LedgerKey()) && !NoSpendFrom(h, q.LedgerKey())
    ensures var k, l', total := q.LedgerKey(), Run(SyncStep(l, q, at), h), AmountAfter(l, q, at, h);
      var b := if q.budget.Some? then q.budget.value as real else 0.0;
      var p := if q.softLimitPct == 0 then 80 else q.softLimitPct;
      && k in l'
      && (l'[k].state == Exceeded <==> b > 0.0 && total >= b)
      && (l'[k].state == SoftLimit <==> b > 0.0 && total < b && p > 0 && 100.0 * total >= p as real * b)
      && l'[k].state in {Active, SoftLimit, Exceeded}
  {
    hide ComputeState, UsdOf, TokensOf, RunsOf, OwnCharges, Run, NoSpendFrom;
    GrowthAmidOthers(SyncStep(l, q, at), h, q.LedgerKey());
    RunsOfOwn(h, q.LedgerKey());
    StateThresholds(BudgetUSD(q), SoftLimitOf(q), AmountAfter(l, q, at, h));
  }

  /** What a Sync installs, field by field, on the entry found or on a new one without spend. */
  lemma SyncedFields(l: Ledger, q: Quota, at: Time)
    ensures var k := q.namespace + "/" + q.target; var l', st := SyncStep(l, q, at), q.status;
      && k in l' && l'.Keys == l.Keys + {k}
      && (forall j :: j in l && j != k ==> l'[j] == l[j])
      && l'[k].maxUSD == (if q.budget.Some? then q.budget.value as real else 0.0)
      && l'[k].softLimitPct == (if q.softLimitPct == 0 then 80 else q.softLimitPct)
      && l'[k].nextRenewal == (if st.nextRenewal.Some? then st.nextRenewal else if k in l then l[k].nextRenewal else None)
      && (st.state != Unset ==>
            && l'[k].state == st.state && l'[k].spentTokens == st.spentTokens && l'[k].runCount == st.runCount
            && (SpendFormat.Parse(st.spentUSD).Some? ==> l'[k].spentUSD == SpendFormat.Parse(st.spentUSD).value))
      && (st.state == Unset ==>
            && l'[k].state == (if k in l then l[k].state else Active)
            && l'[k].spentTokens == (if k in l then l[k].spentTokens else 0)
            && l'[k].runCount == (if k in l then l[k].runCount else 0))
      && (st.state == Unset || SpendFormat.Parse(st.spentUSD).None? ==>
            l'[k].spentUSD == if k in l then l[k].spentUSD else 0.0)
  {
    hide SpendFormat.Parse;
  }

  // ---------------------------------------------------------------- budgets without effect

  predicate EnforceableBudget(q: Quota) {
    q.budget.Some? && q.budget.value > 0
  }

  /** Some spend of the key leaves it Exceeded. */
  ghost predicate ExceedsAfter(l: Ledger, q: Quota, at: Time, h: seq<Event>) {
    var k, l' := q.LedgerKey(), Run(SyncStep(l, q, at), h);
    OnlySpendsFrom(h, k) && !NoSpendFrom(h, k) && k in l' && l'[k].state == Exceeded
  }

  lemma ExceedingSpend(l: Ledger, q: Quota, at: Time) returns (h: seq<Event>)
    requires EnforceableBudget(q)
    ensures SpendsUp(h, q.LedgerKey()) && ExceedsAfter(l, q, at, h)
  {
    hide ComputeState;
    var a := AtSync(l, q, at);
    var usd := if a.spentUSD < BudgetUSD(q) then BudgetUSD(q) - a.spentUSD else 0.0;
    var e := Spent(Charge(q.namespace, q.target, usd, 0), at);
    h := [e];
    assert [] + [e] == [e];
    RunSnoc(SyncStep(l, q, at), [], e);
    StateThresholds(a.maxUSD, a.softLimitPct, a.spentUSD + usd);
  }

  /** Spending can exceed a quota exactly when AsInt64 yields a positive budget. Any other
      budget counts as zero: it is denied only while no spend has landed and the status synced
      said Exceeded or Suspended, and from the first spend on it is Active. */
  lemma SpendingExceedsExactlyWhen(l: Ledger, q: Quota, at: Time)
    ensures (exists h :: ExceedsAfter(l, q, at, h)) <==> EnforceableBudget(q)
    ensures !EnforceableBudget(q) ==>
      forall h :: OnlySpendsFrom(h, q.LedgerKey()) ==> LeftAlone(l, q, at, h)
  {
    if EnforceableBudget(q) {
      var h := ExceedingSpend(l, q, at);
    } else {
      forall h | OnlySpendsFrom(h, q.LedgerKey()) ensures LeftAlone(l, q, at, h) {
        NeverEnforced(l, q, at, h);
      }
      forall h ensures !ExceedsAfter(l, q, at, h) {
        if OnlySpendsFrom(h, q.LedgerKey()) {
          NeverEnforced(l, q, at, h);
        }
      }
    }
  }

  ghost predicate LeftAlone(l: Ledger, q: Quota, at: Time, h: seq<Event>) {
    var k, l' := q.LedgerKey(), Run(SyncStep(l, q, at), h);
    k in l' && l'[k].state == if NoSpendFrom(h, k) then AtSync(l, q, at).state else Active
  }

  lemma NeverEnforced(l: Ledger, q: Quota, at: Time, h: seq<Event>)
    requires !EnforceableBudget(q) && OnlySpendsFrom(h, q.LedgerKey())
    ensures LeftAlone(l, q, at, h)
  {
    hide UsdOf, TokensOf;
    GrowthAmidOthers(SyncStep(l, q, at), h, q.LedgerKey());
    RunsOfOwn(h, q.LedgerKey());
  }

  const HALF_DOLLAR_QUOTA := Quota("team", "quota", "agent", None, 80, Daily, Status("0.5", 0, 1, Exceeded, None, None))

  /** So a budget of half a dollar is not without effect: a status that says Exceeded denies the
      pods of its ServiceAccount until a spend of any size admits them again. */
  lemma HalfDollarBudgetDeniesUntilSpend(at: Time, usd: real, tokens: int)
    ensures var q := HALF_DOLLAR_QUOTA; var synced := SyncStep(map[], q, at);
      && Verdict(CheckKey(synced, q.LedgerKey(), at)) == Deny
      && Verdict(CheckKey(ChargeStep(synced, q.LedgerKey(), usd, tokens, at), q.LedgerKey(), at)) == Allow
  {
  }

  // ---------------------------------------------------------------- suspension

  /** A synced suspension denies up to the first spend, and after it exactly as an exceeded
      budget does. */
  lemma SuspensionDeniesExactlyWhen(l: Ledger, q: Quota, at: Time, h: seq<Event>, now: Time)
    requires q.status.state == Suspended && OnlySpendsFrom(h, q.LedgerKey()) && !Expired(AtSync(l, q, at), now)
    ensures Verdict(CheckKey(Run(SyncStep(l, q, at), h), q.LedgerKey(), now)) == Deny <==>
      NoSpendFrom(h, q.LedgerKey()) || (BudgetUSD(q) > 0.0 && AmountAfter(l, q, at, h) >= BudgetUSD(q))
  {
    hide UsdOf, OwnCharges, Run;
    DeniedAfterSync(l, q, at, h, now);
  }

  /** A reconcile writes Suspended back exactly when it read it and no spend of the key landed
      between its Sync and its Get. */
  lemma SuspensionWrittenExactlyWhen(l: Ledger, q: Quota, env: Env, stored: Status)
    requires Readable(q.status) && Reports(q, env)
    ensures Durable(stored, Reconciling(l, q, env).attempts).state == Suspended <==>
      q.status.state == Suspended && RunsOf(Charges(env.during), q.LedgerKey()) == 0
  {
    hide Readable, Reconciling, Durable, UsdOf, TokensOf, RunsOf, SpendFormat.Rounded, SpendFormat.Print, SpendFormat.Parse, Run, NextRenewal, SyncEvents;
    ExactAccounting(l, q, env, stored);
  }

  ghost predicate NoSpendKept(rounds: seq<Round>, k: string) {
    forall i :: 0 <= i < |rounds| && rounds[i].env.second.Written? ==> NoSpendFrom(rounds[i].env.during, k)
  }

  lemma SuspensionAfterRound(l: Ledger, q: Quota, r: Round, deadline: Time)
    requires Readable(q.status) && q.status.nextRenewal == Some(deadline)
    requires r.env.Fair() && r.env.clock.due <= deadline
    ensures Durable(q.status, Reconciling(l, q, r.env).attempts).state == Suspended <==>
      q.status.state == Suspended && (r.env.second.Written? ==> NoSpendFrom(r.env.during, q.LedgerKey()))
  {
    hide Readable, Reconciling, Durable, RunsOf, OwnCharges, SpentCharges, NoSpendFrom, TallyOf;
    if r.env.second.Written? {
      SuspensionWrittenExactlyWhen(l, q, r.env, q.status);
      SpentOfSpends(r.env.during);
      OwnIsShare(r.env.during, q.LedgerKey());
      RunsOfOwn(r.env.during, q.LedgerKey());
    } else {
      UnwrittenReport(l, q, r.env);
    }
  }

  lemma NoSpendKeptSnoc(rounds: seq<Round>, k: string)
    requires rounds != []
    ensures var r := rounds[|rounds| - 1];
      NoSpendKept(rounds, k) <==>
        NoSpendKept(rounds[..|rounds| - 1], k) && (r.env.second.Written? ==> NoSpendFrom(r.env.during, k))
  {
    hide NoSpendFrom;
  }

  lemma {:induction false} SuspensionKept(l: Ledger, q: Quota, rounds: seq<Round>, deadline: Time)
    requires Readable(q.status) && q.status.nextRenewal == Some(deadline) && RenewalFree(rounds, deadline)
    ensures System(l, q, rounds).1.state == Suspended <==>
      q.status.state == Suspended && NoSpendKept(rounds, q.LedgerKey())
  {
    if rounds != [] {
      hide Readable, Run, Reconciling, Durable, NoSpendFrom, NoSpendKept;
      var init, r := rounds[..|rounds| - 1], rounds[|rounds| - 1];
      DeadlineKept(l, q, init, deadline);
      SuspensionKept(l, q, init, deadline);
      var (l', st) := System(l, q, init);
      SuspensionAfterRound(Run(l', r.gap), q.(status := st), r, deadline);
      NoSpendKeptSnoc(rounds, q.LedgerKey());
    }
  }

  /** Over any renewal-free run the durable suspension lasts exactly as long as no spend falls
      into the Sync-to-Get window of a reconcile whose write succeeds. While it lasts the next
      Sync installs it again, even if a spend in between had lifted it in the ledger. */
  lemma SuspensionLastsExactlyWhen(l: Ledger, q: Quota, rounds: seq<Round>, deadline: Time, at: Time)
    requires Readable(q.status) && q.status.nextRenewal == Some(deadline) && RenewalFree(rounds, deadline)
    ensures var (l', st) := System(l, q, rounds);
      && (st.state == Suspended <==> q.status.state == Suspended && NoSpendKept(rounds, q.LedgerKey()))
      && (st.state == Suspended <==> AtSync(l', q.(status := st), at).state == Suspended)
  {
    hide System, NoSpendKept, RenewalFree;
    DeadlineKept(l, q, rounds, deadline);
    SuspensionKept(l, q, rounds, deadline);
  }
}
