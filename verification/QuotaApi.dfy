/** The TokenQuota resource: the part of its spec the program enforces, and its status. */
module QuotaApi {
  import opened Common

  /** The state strings; Unset is the empty string, Other any unknown one. */
  datatype QuotaState = Unset | Active | SoftLimit | Exceeded | Suspended | Other(text: string)

  datatype RenewalInterval = Hourly | Daily | Monthly

  datatype Status = Status(
    spentUSD: string,
    spentTokens: int,
    runCount: int,
    state: QuotaState,
    lastUpdated: Option<Time>,
    nextRenewal: Option<Time>)

  /** budget is what Quantity.AsInt64 yields, None when it refuses the quantity, as it does
      fractions and amounts beyond 64 bits. */
  datatype Quota = Quota(
    namespace: string,
    name: string,
    target: string,
    budget: Option<int>,
    softLimitPct: int,
    interval: RenewalInterval,
    status: Status)
  {
    function LedgerKey(): string { Key(namespace, target) }
  }
}
