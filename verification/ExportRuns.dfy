/** What whole exports do to the ledger: conservation over one batch, and agreement
    of concurrent batches with any serial order or splitting of them. */
module ExportRuns {
  import opened Common
  import opened QuotaApi
  import opened LedgerSpec
  import opened SpendRuns
  import opened Pricing
  import opened DefaultPrices
  import opened Receiver

  // ---------------------------------------------------------------- conservation of a batch

  predicate BilledTo(it: Item, k: string) {
    Billable(it) && Key(it.namespace, it.account) == k
  }

  function BilledUSD(items: seq<Item>, t: Tariff, k: string): real {
    if items == [] then 0.0
    else
      var it := items[|items| - 1];
      BilledUSD(items[..|items| - 1], t, k) + if BilledTo(it, k) then CostOf(it, t) else 0.0
  }

  function BilledTokens(items: seq<Item>, k: string): int {
    if items == [] then 0
    else
      var it := items[|items| - 1];
      BilledTokens(items[..|items| - 1], k) + if BilledTo(it, k) then TokensIn(it) else 0
  }

  function BilledSpans(items: seq<Item>, k: string): nat {
    if items == [] then 0
    else BilledSpans(items[..|items| - 1], k) + if BilledTo(items[|items| - 1], k) then 1 else 0
  }

  lemma BillOfOne(it: Item, t: Tariff, k: string)
    ensures UsdOf(Bill(it, Some(t)), k) == if BilledTo(it, k) then CostOf(it, t) else 0.0
    ensures TokensOf(Bill(it, Some(t)), k) == if BilledTo(it, k) then TokensIn(it) else 0
    ensures RunsOf(Bill(it, Some(t)), k) == if BilledTo(it, k) then 1 else 0
  {
    hide Billable, CostOf, TokensIn;
  }

  lemma {:induction false} BillsSum(items: seq<Item>, t: Tariff, k: string)
    ensures UsdOf(Bills(items, Some(t)), k) == BilledUSD(items, t, k)
    ensures TokensOf(Bills(items, Some(t)), k) == BilledTokens(items, k)
    ensures RunsOf(Bills(items, Some(t)), k) == BilledSpans(items, k)
  {
    if items != [] {
      hide Bill, BilledTo, CostOf, TokensIn;
      var init, it := items[..|items| - 1], items[|items| - 1];
      BillsSum(init, t, k);
      BillOfOne(it, t, k);
      SumsConcat(Bills(init, Some(t)), Bill(it, Some(t)), k);
    }
  }

  lemma TimedCharges(cs: seq<Charge>, at: Time)
    ensures Charges(Timed(cs, at)) == cs
  {
  }

  lemma ChargesConcat(g: seq<Event>, h: seq<Event>)
    requires OnlySpends(g) && OnlySpends(h)
    ensures Charges(g + h) == Charges(g) + Charges(h)
  {
  }

  /** The clock has no part in what is charged. */
  lemma {:induction false} SpendsCharge(items: seq<Item>, t: Option<Tariff>, clock: Clock)
    ensures Charges(Spends(items, t, clock)) == Bills(items, t)
  {
    if items != [] {
      hide Bill, Timed;
      var init, it := items[..|items| - 1], items[|items| - 1];
      SpendsCharge(init, t, clock);
      TimedCharges(Bill(it, t), clock(|items| - 1));
      ChargesConcat(Spends(init, t, clock), Timed(Bill(it, t), clock(|items| - 1)));
    }
  }

  /** After one batch, each existing account has grown by exactly the sums over the billable
      spans attributed to it, an account without such a span is untouched, and none appears. */
  lemma BatchConservation(l: Ledger, batch: seq<ResourceSpans>, t: Tariff, clock: Clock, k: string)
    ensures var l' := Run(l, Spends(Items(batch), Some(t), clock));
      && l'.Keys == l.Keys
      && (k in l ==>
            && l'[k].spentUSD == l[k].spentUSD + BilledUSD(Items(batch), t, k)
            && l'[k].spentTokens == l[k].spentTokens + BilledTokens(Items(batch), k)
            && l'[k].runCount == l[k].runCount + BilledSpans(Items(batch), k)
            && (BilledSpans(Items(batch), k) == 0 ==> l'[k] == l[k])
            && (BilledSpans(Items(batch), k) > 0 ==> Coherent(l'[k])))
  {
    hide ComputeState;
    var h := Spends(Items(batch), Some(t), clock);
    SpendsCharge(Items(batch), Some(t), clock);
    BillsSum(Items(batch), t, k);
    SpendConservation(l, h, k);
  }

  lemma {:induction false} UnwiredBillsNothing(items: seq<Item>, clock: Clock)
    ensures Spends(items, None, clock) == []
  {
    if items != [] {
      UnwiredBillsNothing(items[..|items| - 1], clock);
    }
  }

  // ---------------------------------------------------------------- splitting and interleaving

  function ResourceItems(r: ResourceSpans): seq<Item> {
    if Identified(r) then ScopeItems(r, r.scopes) else []
  }

  lemma NoItems()
    ensures Items([]) == []
  {
  }

  lemma ItemsSnoc(a: seq<ResourceSpans>, r: ResourceSpans)
    ensures Items(a + [r]) == Items(a) + ResourceItems(r)
  {
    assert (a + [r])[..|a|] == a;
  }

  lemma {:induction false} ItemsConcat(a: seq<ResourceSpans>, b: seq<ResourceSpans>)
    ensures Items(a + b) == Items(a) + Items(b)
  {
    hide Items, ResourceItems;
    if b == [] {
      assert a + b == a;
      NoItems();
    } else {
      var init, r := b[..|b| - 1], b[|b| - 1];
      ItemsConcat(a, init);
      assert a + b == (a + init) + [r] && b == init + [r];
      ItemsSnoc(a + init, r);
      ItemsSnoc(init, r);
    }
  }

  lemma NoBills(t: Option<Tariff>)
    ensures Bills([], t) == []
  {
  }

  lemma BillsSnoc(a: seq<Item>, it: Item, t: Option<Tariff>)
    ensures Bills(a + [it], t) == Bills(a, t) + Bill(it, t)
  {
    hide Bill;
    assert (a + [it])[..|a|] == a;
  }

  lemma {:induction false} BillsConcat(a: seq<Item>, b: seq<Item>, t: Option<Tariff>)
    ensures Bills(a + b, t) == Bills(a, t) + Bills(b, t)
  {
    hide Bill, Bills;
    if b == [] {
      assert a + b == a;
      NoBills(t);
    } else {
      var init, it := b[..|b| - 1], b[|b| - 1];
      BillsConcat(a, init, t);
      assert a + b == (a + init) + [it] && b == init + [it];
      BillsSnoc(a + init, it, t);
      BillsSnoc(init, it, t);
    }
  }

  /** The charges of each of several requests. */
  function Threads(requests: seq<seq<ResourceSpans>>, t: Option<Tariff>): seq<seq<Charge>> {
    if requests == [] then []
    else [Bills(Items(requests[0]), t)] + Threads(requests[1..], t)
  }

  /** One request with everything in it. */
  function Merged(requests: seq<seq<ResourceSpans>>): seq<ResourceSpans> {
    if requests == [] then [] else requests[0] + Merged(requests[1..])
  }

  lemma {:induction false} MergedCharges(requests: seq<seq<ResourceSpans>>, t: Option<Tariff>)
    ensures Serial(Threads(requests, t)) == Bills(Items(Merged(requests)), t)
  {
    if requests != [] {
      hide Items, Bills;
      MergedCharges(requests[1..], t);
      ItemsConcat(requests[0], Merged(requests[1..]));
      BillsConcat(Items(requests[0]), Items(Merged(requests[1..])), t);
      assert Threads(requests, t)[1..] == Threads(requests[1..], t);
    } else {
      NoBatch(t);
    }
  }

  lemma NoBatch(t: Option<Tariff>)
    ensures Bills(Items([]), t) == []
  {
  }

  /** Concurrent exports: however the ledger steps of several requests interleave, with each
      other and with any operations on other keys, and at whatever times, an account that is
      otherwise left alone ends as after one request carrying all their spans. */
  lemma ConcurrentExports(l: Ledger, requests: seq<seq<ResourceSpans>>, t: Option<Tariff>,
                          h: seq<Event>, clock: Clock, k: string)
    requires OnlySpendsFrom(h, k) && Interleaving(Threads(requests, t), SpentCharges(h))
    ensures var whole := Run(l, Spends(Items(Merged(requests)), t, clock));
      && whole.Keys == l.Keys && (k in Run(l, h) <==> k in l)
      && (k in l ==> SameAccount(Run(l, h)[k], whole[k]))
      && (OnlySpends(h) ==> Run(l, h).Keys == l.Keys)
  {
    var serial := Spends(Items(Merged(requests)), t, clock);
    SpendsCharge(Items(Merged(requests)), t, clock);
    MergedCharges(requests, t);
    ExportConfluence(l, Threads(requests, t), h, serial, k);
  }

  /** Any permutation of the spans of a batch, across any resources, charges the same. */
  lemma PermutedBatches(l: Ledger, a: seq<Item>, b: seq<Item>, t: Option<Tariff>, c: Clock, d: Clock, k: string)
    requires multiset(a) == multiset(b)
    ensures Run(l, Spends(a, t, c)).Keys == Run(l, Spends(b, t, d)).Keys == l.Keys
    ensures k in l ==> SameAccount(Run(l, Spends(a, t, c))[k], Run(l, Spends(b, t, d))[k])
  {
    SpendsCharge(a, t, c);
    SpendsCharge(b, t, d);
    BillsOfPermutation(a, b, t);
    PermutationConfluence(l, Spends(a, t, c), Spends(b, t, d), k);
  }

  lemma {:induction false} BillsOfPermutation(a: seq<Item>, b: seq<Item>, t: Option<Tariff>)
    requires multiset(a) == multiset(b)
    ensures multiset(Bills(a, t)) == multiset(Bills(b, t))
  {
    hide Bill, Bills;
    if a == [] {
      assert |multiset(b)| == 0;
    } else {
      var i := FindItem(a, b);
      var restA, restB := a[1..], b[..i] + b[i + 1..];
      BillsOfPermutation(restA, restB, t);
      BillsWithout(a, 0, t);
      assert a[..0] + a[1..] == restA;
      BillsWithout(b, i, t);
    }
  }

  lemma FindItem(a: seq<Item>, b: seq<Item>) returns (i: nat)
    requires a != [] && multiset(a) == multiset(b)
    ensures i < |b| && b[i] == a[0]
    ensures multiset(b[..i] + b[i + 1..]) == multiset(a[1..])
  {
    assert a[0] in multiset(b);
    i :| 0 <= i < |b| && b[i] == a[0];
    assert a == [a[0]] + a[1..];
    assert b == b[..i] + [b[i]] + b[i + 1..];
    assert multiset(b[..i] + b[i + 1..]) == multiset(b) - multiset{a[0]};
  }

  lemma BillsWithout(b: seq<Item>, i: nat, t: Option<Tariff>)
    requires i < |b|
    ensures multiset(Bills(b, t)) == multiset(Bills(b[..i] + b[i + 1..], t)) + multiset(Bills([b[i]], t))
  {
    hide Bill, Bills;
    assert b == b[..i] + ([b[i]] + b[i + 1..]);
    BillsConcat(b[..i], [b[i]] + b[i + 1..], t);
    BillsConcat([b[i]], b[i + 1..], t);
    BillsConcat(b[..i], b[i + 1..], t);
  }

  // ---------------------------------------------------------------- the default table

  /** With the built-in prices, every span with non-negative counts is charged within the
      table's extreme rates, so the runs of exports satisfy the sandwich's hypothesis. */
  lemma DefaultBillWithinRates(it: Item, es: seq<PriceEntry>, matches: Matcher)
    requires Lists(es, DEFAULT_PRICES)
    requires OrZero(InputTokens(it.span)) >= 0 && OrZero(OutputTokens(it.span)) >= 0
    ensures forall c :: c in Bill(it, Some(Rates(es, FALLBACK, matches))) ==> WithinRates(c)
  {
    hide WithinRates, InputTokens, OutputTokens, ModelOf;
    DefaultEstimateWithinRates(es, matches, ModelOf(it.span), OrZero(InputTokens(it.span)),
                               OrZero(OutputTokens(it.span)), it.namespace, it.account);
  }
}
