/** What the ledger knows about one ServiceAccount, read off the log of operations
    on that account alone, and the proof that the cache computes exactly this. */
module LedgerHistory {
  import opened Common
  import opened QuotaApi
  import opened LedgerSpec
  import SpendFormat

  /** The operations of one key since its entry came into being: everything before
      the last Delete is forgotten, and so is everything before the Sync that followed. */
  function Live(h: seq<Event>, k: string): (live: seq<Event>)
    ensures live != [] ==> live[0].Synced?
  {
    if h == [] then []
    else
      var before, e := Live(h[..|h| - 1], k), h[|h| - 1];
      if e.LedgerKey() != k then before
      else if e.Deleted? then []
      else if before == [] && !e.Synced? then []
      else before + [e]
  }

  predicate CarriesState(e: Event) { e.Synced? && !e.quota.status.state.Unset? }
  predicate SetsDeadline(e: Event) { e.Synced? && e.quota.status.nextRenewal.Some? }
  predicate SetsCounts(e: Event) { e.Zeroed? || CarriesState(e) }
  predicate SetsAmount(e: Event) {
    e.Zeroed? || (CarriesState(e) && SpendFormat.Parse(e.quota.status.spentUSD).Some?)
  }
  predicate SetsState(e: Event) { e.Spent? || SetsCounts(e) }

  function SumUSD(h: seq<Event>): real {
    if h == [] then 0.0
    else SumUSD(h[..|h| - 1]) + if h[|h| - 1].Spent? then h[|h| - 1].charge.usd else 0.0
  }

  function SumTokens(h: seq<Event>): int {
    if h == [] then 0
    else SumTokens(h[..|h| - 1]) + if h[|h| - 1].Spent? then h[|h| - 1].charge.tokens else 0
  }

  function CountSpent(h: seq<Event>): int {
    if h == [] then 0 else CountSpent(h[..|h| - 1]) + if h[|h| - 1].Spent? then 1 else 0
  }

  /** The quota installed last. */
  function LastQuota(live: seq<Event>): Quota
    requires live != [] && live[0].Synced?
  {
    live[LastIndex(live, (e: Event) => e.Synced?)].quota
  }

  function Deadline(live: seq<Event>): Option<Time> {
    var i := LastIndex(live, SetsDeadline);
    if i < 0 then None else live[i].quota.status.nextRenewal
  }

  function AmountSet(e: Event): real
    requires SetsAmount(e)
  {
    if e.Zeroed? then 0.0 else SpendFormat.Parse(e.quota.status.spentUSD).value
  }

  /** The amount operation i installed or cleared (nothing for -1), plus every later spend. */
  function SpentFrom(live: seq<Event>, i: int): real
    requires -1 <= i < |live| && (i >= 0 ==> SetsAmount(live[i]))
  {
    (if i < 0 then 0.0 else AmountSet(live[i])) + SumUSD(live[i + 1..])
  }

  function SpentUSD(live: seq<Event>): real {
    SpentFrom(live, LastIndex(live, SetsAmount))
  }

  function SpentTokens(live: seq<Event>): int {
    var i := LastIndex(live, SetsCounts);
    var base := if i < 0 || live[i].Zeroed? then 0 else live[i].quota.status.spentTokens;
    base + SumTokens(live[i + 1..])
  }

  function RunCount(live: seq<Event>): int {
    var i := LastIndex(live, SetsCounts);
    var base := if i < 0 || live[i].Zeroed? then 0 else live[i].quota.status.runCount;
    base + CountSpent(live[i + 1..])
  }

  /** The state operation i left: the one Sync read, Active after a reset, the thresholds
      of the quota in force at that moment after a spend. */
  function StateSet(live: seq<Event>, i: nat): QuotaState
    requires i < |live| && live[0].Synced?
  {
    match live[i]
    case Synced(q, _) => q.status.state
    case Spent(_, _) =>
      var q := LastQuota(live[..i]);
      ComputeState(BudgetUSD(q), SoftLimitOf(q), SpentUSD(live[..i + 1]))
    case _ => Active
  }

  /** Decided by the last operation that touches the state. */
  function StateOf(live: seq<Event>): QuotaState
    requires live != [] ==> live[0].Synced?
  {
    var i := LastIndex(live, SetsState);
    if i < 0 then Active else StateSet(live, i)
  }

  function LastAt(live: seq<Event>): Time {
    if live == [] || live[|live| - 1].Deleted? then 0 else live[|live| - 1].at
  }

  function AccountOf(live: seq<Event>): Account
    requires live != [] && live[0].Synced?
  {
    var q := LastQuota(live);
    Account(BudgetUSD(q), SoftLimitOf(q), SpentUSD(live), SpentTokens(live), RunCount(live),
            StateOf(live), Deadline(live), LastAt(live))
  }

  // ---------------------------------------------------------------- one more operation

  lemma LastIndexSnoc<T>(s: seq<T>, e: T, p: T -> bool)
    ensures LastIndex(s + [e], p) == if p(e) then |s| else LastIndex(s, p)
  {
    assert (s + [e])[..|s|] == s;
  }

  lemma SumsSnoc(s: seq<Event>, i: int, e: Event)
    requires 0 <= i <= |s|
    ensures SumUSD((s + [e])[i..]) == SumUSD(s[i..]) + if e.Spent? then e.charge.usd else 0.0
    ensures SumTokens((s + [e])[i..]) == SumTokens(s[i..]) + if e.Spent? then e.charge.tokens else 0
    ensures CountSpent((s + [e])[i..]) == CountSpent(s[i..]) + if e.Spent? then 1 else 0
  {
    assert (s + [e])[i..] == s[i..] + [e];
    assert (s[i..] + [e])[..|s[i..]|] == s[i..];
  }

  lemma NoAmountYet()
    ensures SpentUSD([]) == 0.0
  {
  }

  lemma NoCountsYet()
    ensures SpentTokens([]) == 0 && RunCount([]) == 0
  {
  }

  lemma NoStateYet()
    ensures StateOf([]) == Active && Deadline([]) == None
  {
  }

  lemma SpentFromSnoc(live: seq<Event>, e: Event, i: int)
    requires -1 <= i < |live| && (i >= 0 ==> SetsAmount(live[i]))
    ensures SpentFrom(live + [e], i) == SpentFrom(live, i) + if e.Spent? then e.charge.usd else 0.0
  {
    SumsSnoc(live, i + 1, e);
  }

  lemma AmountSnoc(live: seq<Event>, e: Event)
    ensures SpentUSD(live + [e]) ==
      if SetsAmount(e) then AmountSet(e)
      else SpentUSD(live) + if e.Spent? then e.charge.usd else 0.0
  {
    hide LastIndex;
    LastIndexSnoc(live, e, SetsAmount);
    if SetsAmount(e) {
      assert (live + [e])[|live| + 1..] == [];
    } else {
      SpentFromSnoc(live, e, LastIndex(live, SetsAmount));
    }
  }

  lemma CountsSnoc(live: seq<Event>, e: Event)
    ensures SpentTokens(live + [e]) ==
      if SetsCounts(e) then (if e.Zeroed? then 0 else e.quota.status.spentTokens)
      else SpentTokens(live) + if e.Spent? then e.charge.tokens else 0
    ensures RunCount(live + [e]) ==
      if SetsCounts(e) then (if e.Zeroed? then 0 else e.quota.status.runCount)
      else RunCount(live) + if e.Spent? then 1 else 0
  {
    hide LastIndex;
    LastIndexSnoc(live, e, SetsCounts);
    var i := LastIndex(live, SetsCounts);
    SumsSnoc(live, i + 1, e);
    assert (live + [e])[|live| + 1..] == [];
  }

  lemma StateKept(live: seq<Event>, e: Event)
    requires !SetsState(e)
    requires live == [] ==> e.Synced?
    requires live != [] ==> live[0].Synced?
    ensures StateOf(live + [e]) == StateOf(live)
  {
    LastIndexSnoc(live, e, SetsState);
    var s, i := live + [e], LastIndex(live, SetsState);
    if i >= 0 {
      assert s[i] == live[i] && s[..i] == live[..i] && s[..i + 1] == live[..i + 1];
      assert StateSet(s, i) == StateSet(live, i);
    }
  }

  lemma StateChanged(live: seq<Event>, e: Event)
    requires SetsState(e)
    requires live == [] ==> e.Synced?
    requires live != [] ==> live[0].Synced?
    ensures StateOf(live + [e]) ==
      match e
      case Synced(q, _) => q.status.state
      case Spent(c, _) =>
        ComputeState(BudgetUSD(LastQuota(live)), SoftLimitOf(LastQuota(live)), SpentUSD(live) + c.usd)
      case _ => Active
  {
    hide SpendFormat.Parse, ComputeState, SpentUSD, LastQuota, LastIndex;
    LastIndexSnoc(live, e, SetsState);
    var s := live + [e];
    assert StateOf(s) == StateSet(s, |live|);
    if e.Spent? {
      assert s[..|live|] == live && s[..|live| + 1] == s;
      AmountSnoc(live, e);
    }
  }

  lemma QuotaSnoc(live: seq<Event>, e: Event)
    requires live == [] ==> e.Synced?
    requires live != [] ==> live[0].Synced?
    ensures LastQuota(live + [e]) == if e.Synced? then e.quota else LastQuota(live)
    ensures Deadline(live + [e]) == if SetsDeadline(e) then e.quota.status.nextRenewal else Deadline(live)
  {
    LastIndexSnoc(live, e, (e: Event) => e.Synced?);
    LastIndexSnoc(live, e, SetsDeadline);
  }

  lemma FirstSync(e: Event)
    requires e.Synced?
    ensures AccountOf([e]) == Installed(NEW_ACCOUNT, e.quota, e.at)
  {
    hide SpendFormat.Parse, ComputeState, SpentUSD, SpentTokens, RunCount, StateOf, Deadline, LastQuota;
    var none: seq<Event> := [];
    NoAmountYet();
    NoCountsYet();
    NoStateYet();
    assert none + [e] == [e];
    AmountSnoc(none, e);
    CountsSnoc(none, e);
    QuotaSnoc(none, e);
    if SetsState(e) { StateChanged(none, e); } else { StateKept(none, e); }
  }

  lemma LaterSync(live: seq<Event>, e: Event)
    requires e.Synced? && live != [] && live[0].Synced?
    ensures AccountOf(live + [e]) == Installed(AccountOf(live), e.quota, e.at)
  {
    hide SpendFormat.Parse, ComputeState, SpentUSD, SpentTokens, RunCount, StateOf, Deadline, LastQuota;
    AmountSnoc(live, e);
    CountsSnoc(live, e);
    QuotaSnoc(live, e);
    if SetsState(e) { StateChanged(live, e); } else { StateKept(live, e); }
  }

  lemma LaterSpend(live: seq<Event>, e: Event)
    requires e.Spent? && live != [] && live[0].Synced?
    ensures AccountOf(live + [e]) == Charged(AccountOf(live), e.charge.usd, e.charge.tokens, e.at)
  {
    hide SpendFormat.Parse, ComputeState, SpentUSD, SpentTokens, RunCount, StateOf, Deadline, LastQuota;
    AmountSnoc(live, e);
    CountsSnoc(live, e);
    QuotaSnoc(live, e);
    StateChanged(live, e);
  }

  lemma LaterReset(live: seq<Event>, e: Event)
    requires e.Zeroed? && live != [] && live[0].Synced?
    ensures AccountOf(live + [e]) == Cleared(AccountOf(live), e.at)
  {
    hide SpendFormat.Parse, ComputeState, SpentUSD, SpentTokens, RunCount, StateOf, Deadline, LastQuota;
    AmountSnoc(live, e);
    CountsSnoc(live, e);
    QuotaSnoc(live, e);
    StateChanged(live, e);
  }

  // ---------------------------------------------------------------- refinement

  /** For every log of operations on any keys, an entry exists exactly when the key's
      own history is live, and then every field is what that history says. */
  lemma {:induction false} LedgerRefinesHistory(h: seq<Event>, k: string)
    ensures k in Run(map[], h) <==> Live(h, k) != []
    ensures k in Run(map[], h) ==> Run(map[], h)[k] == AccountOf(Live(h, k))
  {
    hide AccountOf, Installed, Charged, Cleared;
    if h != [] {
      var init, e := h[..|h| - 1], h[|h| - 1];
      LedgerRefinesHistory(init, k);
      if e.LedgerKey() != k {
        ApplyFrame(Run(map[], init), e, k);
      } else if Live(init, k) != [] {
        match e
        case Synced(_, _) => LaterSync(Live(init, k), e);
        case Spent(_, _) => LaterSpend(Live(init, k), e);
        case Zeroed(_, _, _) => LaterReset(Live(init, k), e);
        case Deleted(_, _) =>
      } else if e.Synced? {
        assert Live(h, k) == [e];
        FirstSync(e);
      }
    }
  }

  /** The part of a log that concerns one key. */
  function Own(h: seq<Event>, k: string): seq<Event> {
    if h == [] then []
    else Own(h[..|h| - 1], k) + if h[|h| - 1].LedgerKey() == k then [h[|h| - 1]] else []
  }

  lemma {:induction false} LiveDependsOnOwn(h: seq<Event>, k: string)
    ensures Live(h, k) == Live(Own(h, k), k)
  {
    if h != [] {
      var init, e := h[..|h| - 1], h[|h| - 1];
      LiveDependsOnOwn(init, k);
      if e.LedgerKey() == k {
        assert Own(h, k)[..|Own(h, k)| - 1] == Own(init, k);
      } else {
        assert Own(h, k) == Own(init, k);
      }
    }
  }

  /** Key isolation: two logs that agree on the operations of one key leave it with the
      same account and the same Check, whatever they do to all the others. */
  lemma KeyIsolation(g: seq<Event>, h: seq<Event>, k: string, now: Time)
    requires Own(g, k) == Own(h, k)
    ensures k in Run(map[], g) <==> k in Run(map[], h)
    ensures k in Run(map[], g) ==> Run(map[], g)[k] == Run(map[], h)[k]
    ensures CheckKey(Run(map[], g), k, now) == CheckKey(Run(map[], h), k, now)
  {
    LedgerRefinesHistory(g, k);
    LedgerRefinesHistory(h, k);
    LiveDependsOnOwn(g, k);
    LiveDependsOnOwn(h, k);
  }

  /** Operations on another (namespace, ServiceAccount) pair, namespaces being slash-free,
      never change a pair's account. */
  lemma {:induction false} PairIsolation(l: Ledger, h: seq<Event>, ns: string, sa: string)
    requires SlashFree(ns)
    requires forall i :: 0 <= i < |h| ==>
      exists ns', sa' :: SlashFree(ns') && h[i].LedgerKey() == Key(ns', sa') && (ns', sa') != (ns, sa)
    ensures Key(ns, sa) in Run(l, h) <==> Key(ns, sa) in l
    ensures Key(ns, sa) in l ==> Run(l, h)[Key(ns, sa)] == l[Key(ns, sa)]
  {
    if h != [] {
      var init, e := h[..|h| - 1], h[|h| - 1];
      assert e == h[|h| - 1];
      var ns', sa' :| SlashFree(ns') && e.LedgerKey() == Key(ns', sa') && (ns', sa') != (ns, sa);
      assert forall i :: 0 <= i < |init| ==> init[i] == h[i];
      PairIsolation(l, init, ns, sa);
      KeyInjective(ns, sa, ns', sa');
      ApplyFrame(Run(l, init), e, Key(ns, sa));
    }
  }
}
