/** Pod admission: a function of the ledger alone. */
module Webhook {
  import opened Common
  import opened QuotaApi
  import opened LedgerSpec
  import opened LedgerCache
  import opened LedgerHistory

  /** account is the decoded pod's serviceAccountName, None when decoding failed. */
  datatype AdmissionRequest = AdmissionRequest(create: bool, namespace: string, account: Option<string>)

  datatype Response = Allow | Warn | Deny | BadRequest

  function AccountName(name: string): string {
    if name == "" then "default" else name
  }

  function Verdict(s: QuotaState): Response {
    match s
    case Exceeded => Deny
    case Suspended => Deny
    case SoftLimit => Warn
    case _ => Allow
  }

  function Handle(cache: Cache, req: AdmissionRequest, now: Time): (r: Response)
    reads cache, cache.entries.Values
    ensures r == BadRequest <==> req.create && req.account.None?
    ensures !req.create ==> r == Allow
    ensures req.create && req.account.Some? ==>
      var s := CheckKey(cache.View(), Key(req.namespace, if req.account.value == "" then "default" else req.account.value), now);
      && (r == Deny <==> s == Exceeded || s == Suspended)
      && (r == Warn <==> s == SoftLimit)
  {
    if !req.create then Allow
    else if req.account.None? then BadRequest
    else Verdict(cache.Check(req.namespace, AccountName(req.account.value), now))
  }

  /** The verdict read off the key's own history: no live quota or a passed deadline
      admits, otherwise the last operation that touched the state decides. */
  function HistoryVerdict(h: seq<Event>, k: string, now: Time): Response {
    var live := Live(h, k);
    if live == [] then Allow
    else if Deadline(live).Some? && now > Deadline(live).value then Allow
    else Verdict(StateOf(live))
  }

  /** After any log of cache operations, the webhook answers a pod creation as the
      history of that pod's ServiceAccount says, a missing name read as "default". */
  lemma AdmissionRefinesHistory(h: seq<Event>, cache: Cache, req: AdmissionRequest, now: Time)
    requires cache.View() == Run(map[], h)
    requires req.create && req.account.Some?
    ensures Handle(cache, req, now)
         == HistoryVerdict(h, Key(req.namespace, AccountName(req.account.value)), now)
  {
    LedgerRefinesHistory(h, Key(req.namespace, AccountName(req.account.value)));
  }

  /** Exactly when a pod is denied: its quota is live, its deadline has not passed, and the
      last operation on the state was a Sync of Exceeded or Suspended, or a spend that
      brought the total since the last installed amount to a positive budget. */
  lemma DeniedExactlyWhen(h: seq<Event>, k: string, now: Time)
    ensures HistoryVerdict(h, k, now) == Deny <==>
      var live := Live(h, k);
      var i := LastIndex(live, SetsState);
      && live != []
      && !(Deadline(live).Some? && now > Deadline(live).value)
      && i >= 0
      && (live[i].Synced? ==> live[i].quota.status.state in {Exceeded, Suspended})
      && (live[i].Spent? ==>
            var budget := LastQuota(live[..i]).budget;
            budget.Some? && budget.value > 0 && SpentUSD(live[..i + 1]) >= budget.value as real)
      && !live[i].Zeroed?
  {
    hide SpendFormat.Parse, ComputeState, LastIndex, SpentUSD, LastQuota, Live, Deadline;
    var live := Live(h, k);
    var i := LastIndex(live, SetsState);
    if i >= 0 && live[i].Spent? {
      var q := LastQuota(live[..i]);
      StateThresholds(BudgetUSD(q), SoftLimitOf(q), SpentUSD(live[..i + 1]));
    }
  }

  /** Exactly when a pod is admitted with a warning: its quota is live, its deadline has not
      passed, and the last operation on the state was a Sync of SoftLimit, or a spend that left
      the total below the budget and at or above the soft limit, 80 percent unless the spec says
      otherwise. */
  lemma WarnedExactlyWhen(h: seq<Event>, k: string, now: Time)
    ensures HistoryVerdict(h, k, now) == Warn <==>
      var live := Live(h, k);
      var i := LastIndex(live, SetsState);
      && live != []
      && !(Deadline(live).Some? && now > Deadline(live).value)
      && i >= 0
      && (live[i].Synced? ==> live[i].quota.status.state == SoftLimit)
      && (live[i].Spent? ==>
            var q, total := LastQuota(live[..i]), SpentUSD(live[..i + 1]);
            var pct := if q.softLimitPct == 0 then 80 else q.softLimitPct;
            && q.budget.Some? && q.budget.value > 0 && pct > 0
            && total < q.budget.value as real && 100.0 * total >= pct as real * q.budget.value as real)
      && !live[i].Zeroed?
  {
    hide SpendFormat.Parse, ComputeState, LastIndex, SpentUSD, LastQuota, Live, Deadline;
    var live := Live(h, k);
    var i := LastIndex(live, SetsState);
    if i >= 0 && live[i].Spent? {
      var q := LastQuota(live[..i]);
      StateThresholds(BudgetUSD(q), SoftLimitOf(q), SpentUSD(live[..i + 1]));
    }
  }

  /** Decoded creations are never answered with an error: whoever is neither denied nor warned
      is admitted. */
  lemma OtherwiseAllowed(h: seq<Event>, k: string, now: Time)
    ensures HistoryVerdict(h, k, now) in {Allow, Warn, Deny}
  {
    hide StateOf, Live, Deadline;
  }
}
