/** The quota ledger as a value: one account per "namespace/serviceAccount" key,
    one function per atomic cache operation, and the run of a log of operations. */
module LedgerSpec {
  import opened Common
  import opened QuotaApi
  import SpendFormat

  datatype Account = Account(
    maxUSD: real,
    softLimitPct: int,
    spentUSD: real,
    spentTokens: int,
    runCount: int,
    state: QuotaState,
    nextRenewal: Option<Time>,
    updatedAt: Time)

  type Ledger = map<string, Account>

  // ---------------------------------------------------------------- thresholds

  function ComputeState(maxUSD: real, softLimitPct: int, spentUSD: real): QuotaState {
    if maxUSD <= 0.0 then Active
    else
      var pct := (spentUSD / maxUSD) * 100.0;
      if pct >= 100.0 then Exceeded
      else if softLimitPct as real > 0.0 && pct >= softLimitPct as real then SoftLimit
      else Active
  }

  predicate Coherent(a: Account) {
    a.state == ComputeState(a.maxUSD, a.softLimitPct, a.spentUSD)
  }

  /** The thresholds without division: Exceeded from the budget on, SoftLimit from
      softLimitPct percent of it on, and neither without a positive budget. */
  lemma StateThresholds(maxUSD: real, softLimitPct: int, spentUSD: real)
    ensures ComputeState(maxUSD, softLimitPct, spentUSD) == Exceeded
       <==> maxUSD > 0.0 && spentUSD >= maxUSD
    ensures ComputeState(maxUSD, softLimitPct, spentUSD) == SoftLimit
       <==> maxUSD > 0.0 && spentUSD < maxUSD
            && softLimitPct > 0 && 100.0 * spentUSD >= softLimitPct as real * maxUSD
    ensures ComputeState(maxUSD, softLimitPct, spentUSD) in {Active, SoftLimit, Exceeded}
  {
    if maxUSD > 0.0 {
      var q := spentUSD / maxUSD;
      assert q * maxUSD == spentUSD;
      ScaleCompare(q, 1.0, maxUSD);
      ScaleCompare(q * 100.0, softLimitPct as real, maxUSD);
      assert (q * 100.0) * maxUSD == 100.0 * (q * maxUSD);
    }
  }

  lemma ScaleCompare(a: real, b: real, m: real)
    requires m > 0.0
    ensures a >= b <==> a * m >= b * m
  {
    assert (a - b) * m == a * m - b * m;
    if a >= b {
      assert (a - b) * m >= 0.0;
    } else {
      assert (b - a) * m > 0.0;
    }
  }

  function Severity(s: QuotaState): nat {
    match s
    case Exceeded => 2
    case SoftLimit => 1
    case _ => 0
  }

  lemma MoreSpendNoLessSevere(maxUSD: real, softLimitPct: int, spent: real, usd: real)
    requires usd >= 0.0
    ensures Severity(ComputeState(maxUSD, softLimitPct, spent))
         <= Severity(ComputeState(maxUSD, softLimitPct, spent + usd))
  {
    StateThresholds(maxUSD, softLimitPct, spent);
    StateThresholds(maxUSD, softLimitPct, spent + usd);
  }

  // ---------------------------------------------------------------- atomic operations

  const DEFAULT_SOFT_LIMIT := 80

  function BudgetUSD(q: Quota): real {
    if q.budget.Some? then q.budget.value as real else 0.0
  }

  function SoftLimitOf(q: Quota): int {
    if q.softLimitPct == 0 then DEFAULT_SOFT_LIMIT else q.softLimitPct
  }

  const NEW_ACCOUNT := Account(0.0, 0, 0.0, 0, 0, Active, None, 0)

  /** Sync on one account. A status with a state is authoritative, except that an
      unreadable amount leaves the amount already held. */
  function Installed(a: Account, q: Quota, now: Time): Account {
    var st := q.status;
    var b := a.(maxUSD := BudgetUSD(q), softLimitPct := SoftLimitOf(q), updatedAt := now,
                nextRenewal := if st.nextRenewal.Some? then st.nextRenewal else a.nextRenewal);
    if st.state.Unset? then b
    else
      var spent := SpendFormat.Parse(st.spentUSD);
      b.(state := st.state, spentTokens := st.spentTokens, runCount := st.runCount,
         spentUSD := if spent.Some? then spent.value else a.spentUSD)
  }

  function Charged(a: Account, usd: real, tokens: int, now: Time): Account {
    a.(spentUSD := a.spentUSD + usd, spentTokens := a.spentTokens + tokens,
       runCount := a.runCount + 1, updatedAt := now,
       state := ComputeState(a.maxUSD, a.softLimitPct, a.spentUSD + usd))
  }

  function Cleared(a: Account, now: Time): Account {
    a.(spentUSD := 0.0, spentTokens := 0, runCount := 0, state := Active, updatedAt := now)
  }

  function SyncStep(l: Ledger, q: Quota, now: Time): Ledger {
    var k := q.LedgerKey();
    l[k := Installed(if k in l then l[k] else NEW_ACCOUNT, q, now)]
  }

  function ChargeStep(l: Ledger, k: string, usd: real, tokens: int, now: Time): Ledger {
    if k in l then l[k := Charged(l[k], usd, tokens, now)] else l
  }

  function ResetStep(l: Ledger, k: string, now: Time): Ledger {
    if k in l then l[k := Cleared(l[k], now)] else l
  }

  function DeleteStep(l: Ledger, k: string): Ledger {
    l - {k}
  }

  /** The renewal deadline has passed: enforcement is suspended until the next Sync. */
  predicate Expired(a: Account, now: Time) {
    a.nextRenewal.Some? && now > a.nextRenewal.value
  }

  function CheckKey(l: Ledger, k: string, now: Time): QuotaState {
    if k !in l || Expired(l[k], now) then Active else l[k].state
  }

  // ---------------------------------------------------------------- logs of operations

  datatype Charge = Charge(namespace: string, account: string, usd: real, tokens: int)
  {
    function LedgerKey(): string { Key(namespace, account) }
  }

  datatype Event =
    | Synced(quota: Quota, at: Time)
    | Spent(charge: Charge, at: Time)
    | Zeroed(namespace: string, account: string, at: Time)
    | Deleted(namespace: string, account: string)
  {
    function LedgerKey(): string {
      match this
      case Synced(q, _) => q.LedgerKey()
      case Spent(c, _) => c.LedgerKey()
      case Zeroed(ns, sa, _) => Key(ns, sa)
      case Deleted(ns, sa) => Key(ns, sa)
    }
  }

  function Apply(l: Ledger, e: Event): Ledger {
    match e
    case Synced(q, at) => SyncStep(l, q, at)
    case Spent(c, at) => ChargeStep(l, c.LedgerKey(), c.usd, c.tokens, at)
    case Zeroed(ns, sa, at) => ResetStep(l, Key(ns, sa), at)
    case Deleted(ns, sa) => DeleteStep(l, Key(ns, sa))
  }

  /** The ledger after a log of operations, oldest first. */
  function Run(l: Ledger, h: seq<Event>): Ledger {
    if h == [] then l else Apply(Run(l, h[..|h| - 1]), h[|h| - 1])
  }

  lemma RunSnoc(l: Ledger, h: seq<Event>, e: Event)
    ensures Run(l, h + [e]) == Apply(Run(l, h), e)
  {
    assert (h + [e])[..|h|] == h;
  }

  lemma {:induction false} RunConcat(l: Ledger, g: seq<Event>, h: seq<Event>)
    ensures Run(l, g + h) == Run(Run(l, g), h)
  {
    if h == [] {
      assert g + h == g;
    } else {
      var init, last := h[..|h| - 1], h[|h| - 1];
      RunConcat(l, g, init);
      assert g + h == (g + init) + [last];
      RunSnoc(l, g + init, last);
    }
  }

  /** An operation on one key leaves every other account alone. */
  lemma ApplyFrame(l: Ledger, e: Event, k: string)
    requires e.LedgerKey() != k
    ensures k in Apply(l, e) <==> k in l
    ensures k in l ==> Apply(l, e)[k] == l[k]
  {
  }
}
