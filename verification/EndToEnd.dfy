/** Properties that cross the receiver, the ledger and admission. */
module EndToEnd {
  import opened Common
  import opened QuotaApi
  import opened LedgerSpec
  import opened LedgerCache
  import opened SpendRuns
  import opened Pricing
  import opened DefaultPrices
  import opened Receiver
  import opened ExportRuns
  import opened Webhook

  ghost predicate NonNegativeCounts(items: seq<Item>) {
    forall i :: 0 <= i < |items| ==> OrZero(InputTokens(items[i].span)) >= 0 && OrZero(OutputTokens(items[i].span)) >= 0
  }

  ghost predicate AllWithinRates(h: seq<Event>) {
    forall i :: 0 <= i < |h| ==> h[i].Spent? && WithinRates(h[i].charge)
  }

  lemma TimedWithinRates(cs: seq<Charge>, at: Time)
    requires forall c :: c in cs ==> WithinRates(c)
    ensures AllWithinRates(Timed(cs, at))
  {
    hide WithinRates;
    TimedCharges(cs, at);
    forall i | 0 <= i < |Timed(cs, at)| ensures WithinRates(Timed(cs, at)[i].charge) {
      assert Charges(Timed(cs, at))[i] == Timed(cs, at)[i].charge;
    }
  }

  lemma WithinRatesConcat(g: seq<Event>, h: seq<Event>)
    requires AllWithinRates(g) && AllWithinRates(h)
    ensures AllWithinRates(g + h)
  {
  }

  /** With the built-in prices, whole exports of non-negative counts stay within the rates. */
  lemma {:induction false} ExportsWithinRates(items: seq<Item>, es: seq<PriceEntry>, matches: Matcher, clock: Clock)
    requires Lists(es, DEFAULT_PRICES) && NonNegativeCounts(items)
    ensures AllWithinRates(Spends(items, Some(Rates(es, FALLBACK, matches)), clock))
  {
    if items != [] {
      hide WithinRates, Bill, Timed, InputTokens, OutputTokens, AllWithinRates;
      var init, it := items[..|items| - 1], items[|items| - 1];
      var t := Some(Rates(es, FALLBACK, matches));
      ExportsWithinRates(init, es, matches, clock);
      DefaultBillWithinRates(it, es, matches);
      TimedWithinRates(Bill(it, t), clock(|items| - 1));
      WithinRatesConcat(Spends(init, t, clock), Timed(Bill(it, t), clock(|items| - 1)));
    }
  }

  /** An existing account with a positive budget, nothing spent and a deadline still ahead. */
  predicate Fresh(l: Ledger, k: string, now: Time) {
    && k in l && l[k].spentUSD == 0.0 && l[k].spentTokens == 0 && Coherent(l[k]) && l[k].maxUSD > 0.0
    && !Expired(l[k], now)
  }

  lemma ExportsExceed(l: Ledger, items: seq<Item>, es: seq<PriceEntry>, matches: Matcher, clock: Clock, k: string, now: Time)
    requires Lists(es, DEFAULT_PRICES) && NonNegativeCounts(items) && Fresh(l, k, now)
    requires BilledTokens(items, k) as real >= l[k].maxUSD * 1000.0 / CHEAPEST
    ensures var l' := Run(l, Spends(items, Some(Rates(es, FALLBACK, matches)), clock));
      k in l' && l'[k].state == Exceeded && l'[k].nextRenewal == l[k].nextRenewal
  {
    hide WithinRates, Bills, ComputeState, Spends;
    var t := Rates(es, FALLBACK, matches);
    var h := Spends(items, Some(t), clock);
    ExportsWithinRates(items, es, matches, clock);
    SpendsCharge(items, Some(t), clock);
    BillsSum(items, t, k);
    SpendConservation(l, h, k);
    ForcedDenial(l, h, k);
  }

  /** Tokens alone bring denial, whatever models the spans name: once any number of concurrent
      exports have billed a fresh account as many tokens as its budget buys at the cheapest rate,
      the webhook denies its pods up to the renewal deadline, whatever has happened to other
      accounts meanwhile. */
  lemma ExportsForceDenial(l: Ledger, requests: seq<seq<ResourceSpans>>, es: seq<PriceEntry>, matches: Matcher,
                           h: seq<Event>, cache: Cache, req: AdmissionRequest, now: Time)
    requires Lists(es, DEFAULT_PRICES) && NonNegativeCounts(Items(Merged(requests)))
    requires req.create && req.account.Some?
    requires var k := Key(req.namespace, AccountName(req.account.value));
      && Fresh(l, k, now) && OnlySpendsFrom(h, k)
      && BilledTokens(Items(Merged(requests)), k) as real >= l[k].maxUSD * 1000.0 / CHEAPEST
    requires Interleaving(Threads(requests, Some(Rates(es, FALLBACK, matches))), SpentCharges(h))
    requires cache.View() == Run(l, h)
    ensures Handle(cache, req, now) == Deny
  {
    hide Spends, Run, Items, Merged, Threads, Interleaving, SpentCharges, BilledTokens, NonNegativeCounts, Lists, CHEAPEST;
    var k, clock: Clock := Key(req.namespace, AccountName(req.account.value)), _ => 0;
    ExportsExceed(l, Items(Merged(requests)), es, matches, clock, k, now);
    ConcurrentExports(l, requests, Some(Rates(es, FALLBACK, matches)), h, clock, k);
  }
}
