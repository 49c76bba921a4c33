/** The in-memory quota cache. Every method takes the lock for its whole body, so
    each is one atomic step; its contract says which step of LedgerSpec it is. */
module LedgerCache {
  import opened Common
  import opened QuotaApi
  import opened LedgerSpec
  import SpendFormat

  /** One account, updated in place. */
  class Entry {
    var maxUSD: real
    var softLimitPct: int
    var spentUSD: real
    var spentTokens: int
    var runCount: int
    var state: QuotaState
    var nextRenewal: Option<Time>
    var updatedAt: Time

    function View(): Account
      reads this
    {
      Account(maxUSD, softLimitPct, spentUSD, spentTokens, runCount, state, nextRenewal, updatedAt)
    }

    constructor (a: Account)
      ensures View() == a
    {
      maxUSD, softLimitPct, spentUSD := a.maxUSD, a.softLimitPct, a.spentUSD;
      spentTokens, runCount, state := a.spentTokens, a.runCount, a.state;
      nextRenewal, updatedAt := a.nextRenewal, a.updatedAt;
    }

    /** What Sync does to an existing or just created entry. */
    method Install(q: Quota, now: Time)
      modifies this
      ensures View() == Installed(old(View()), q, now)
    {
      maxUSD := if q.budget.Some? then q.budget.value as real else 0.0;
      softLimitPct := q.softLimitPct;
      if softLimitPct == 0 {
        softLimitPct := DEFAULT_SOFT_LIMIT;
      }
      if !q.status.state.Unset? {
        state := q.status.state;
        spentTokens := q.status.spentTokens;
        runCount := q.status.runCount;
        var spent := SpendFormat.Parse(q.status.spentUSD);
        if spent.Some? {
          spentUSD := spent.value;
        }
      }
      if q.status.nextRenewal.Some? {
        nextRenewal := q.status.nextRenewal;
      }
      updatedAt := now;
    }
  }

  class Cache {
    var entries: map<string, Entry>

    /** No two keys share an entry. */
    ghost predicate Valid()
      reads this
    {
      forall j, k :: j in entries && k in entries && j != k ==> entries[j] != entries[k]
    }

    ghost function View(): Ledger
      reads this, entries.Values
    {
      map k | k in entries :: entries[k].View()
    }

    constructor ()
      ensures Valid() && View() == map[]
      ensures entries.Values == {}
    {
      entries := map[];
    }

    method Sync(q: Quota, now: Time)
      requires Valid()
      modifies this, entries.Values
      ensures Valid() && fresh(entries.Values - old(entries.Values))
      ensures View() == SyncStep(old(View()), q, now)
    {
      var k := q.LedgerKey();
      if k !in entries {
        var created := new Entry(NEW_ACCOUNT);
        entries := entries[k := created];
      }
      var e := entries[k];
      e.Install(q, now);
    }

    /** The enforcement state admission sees; Active when no quota is configured
        and once the renewal deadline has passed. */
    function Check(namespace: string, account: string, now: Time): (s: QuotaState)
      reads this, entries.Values
      ensures s == CheckKey(View(), Key(namespace, account), now)
    {
      var k := Key(namespace, account);
      if k !in entries then Active
      else
        var e := entries[k];
        if e.nextRenewal.Some? && now > e.nextRenewal.value then Active else e.state
    }

    /** None when the account has no entry, otherwise its new state. */
    method RecordSpend(namespace: string, account: string, usd: real, tokens: int, now: Time)
      returns (r: Option<QuotaState>)
      requires Valid()
      modifies entries.Values
      ensures Valid() && entries == old(entries)
      ensures View() == ChargeStep(old(View()), Key(namespace, account), usd, tokens, now)
      ensures r == if Key(namespace, account) in View() then Some(View()[Key(namespace, account)].state) else None
    {
      var k := Key(namespace, account);
      if k !in entries {
        return None;
      }
      var e := entries[k];
      e.spentUSD := e.spentUSD + usd;
      e.spentTokens := e.spentTokens + tokens;
      e.runCount := e.runCount + 1;
      e.updatedAt := now;
      e.state := ComputeState(e.maxUSD, e.softLimitPct, e.spentUSD);
      return Some(e.state);
    }

    /** A copy of the entry: a new object, so a caller's writes to it never reach the cache. */
    method Get(namespace: string, account: string) returns (copy: Entry?)
      requires Valid()
      ensures copy == null <==> Key(namespace, account) !in View()
      ensures copy != null ==> fresh(copy) && copy.View() == View()[Key(namespace, account)]
    {
      var k := Key(namespace, account);
      if k !in entries {
        return null;
      }
      copy := new Entry(entries[k].View());
    }

    method Reset(namespace: string, account: string, now: Time)
      requires Valid()
      modifies entries.Values
      ensures Valid() && entries == old(entries)
      ensures View() == ResetStep(old(View()), Key(namespace, account), now)
    {
      var k := Key(namespace, account);
      if k !in entries {
        return;
      }
      var e := entries[k];
      e.spentUSD := 0.0;
      e.spentTokens := 0;
      e.runCount := 0;
      e.state := Active;
      e.updatedAt := now;
    }

    method Delete(namespace: string, account: string)
      requires Valid()
      modifies this
      ensures Valid() && entries.Values <= old(entries.Values)
      ensures View() == DeleteStep(old(View()), Key(namespace, account))
    {
      entries := entries - {Key(namespace, account)};
    }

    /** The spends other goroutines land while some operation is between two of its steps. */
    method RecordAll(charges: seq<Event>)
      requires Valid()
      requires forall i :: 0 <= i < |charges| ==> charges[i].Spent?
      modifies entries.Values
      ensures Valid() && entries == old(entries)
      ensures View() == Run(old(View()), charges)
    {
      for i := 0 to |charges|
        invariant entries == old(entries)
        invariant View() == Run(old(View()), charges[..i])
      {
        var c := charges[i].charge;
        var _ := RecordSpend(c.namespace, c.account, c.usd, c.tokens, charges[i].at);
        RunSnoc(old(View()), charges[..i], charges[i]);
        assert charges[..i + 1] == charges[..i] + [charges[i]];
      }
      assert charges[..|charges|] == charges;
    }
  }
}
