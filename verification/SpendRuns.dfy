/** Runs of spends between two Syncs: threshold states, and sums that do not
    depend on how concurrent exports interleave. */
module SpendRuns {
  import opened Common
  import opened QuotaApi
  import opened LedgerSpec

  ghost predicate OnlySpends(h: seq<Event>) {
    forall i :: 0 <= i < |h| ==> h[i].Spent?
  }

  /** Between two Syncs or resets of the key nothing happens to it but spends that cost no less
      than nothing; anything may happen to other keys. */
  ghost predicate SpendsUp(h: seq<Event>, k: string) {
    forall i :: 0 <= i < |h| ==> h[i].LedgerKey() == k ==> h[i].Spent? && h[i].charge.usd >= 0.0
  }

  // ---------------------------------------------------------------- sums per key

  function UsdOf(cs: seq<Charge>, k: string): real {
    if cs == [] then 0.0 else UsdOf(cs[1..], k) + if cs[0].LedgerKey() == k then cs[0].usd else 0.0
  }

  function TokensOf(cs: seq<Charge>, k: string): int {
    if cs == [] then 0 else TokensOf(cs[1..], k) + if cs[0].LedgerKey() == k then cs[0].tokens else 0
  }

  function RunsOf(cs: seq<Charge>, k: string): nat {
    if cs == [] then 0 else RunsOf(cs[1..], k) + if cs[0].LedgerKey() == k then 1 else 0
  }

  function Charges(h: seq<Event>): (cs: seq<Charge>)
    requires forall i :: 0 <= i < |h| ==> h[i].Spent?
    ensures |cs| == |h| && forall i :: 0 <= i < |h| ==> cs[i] == h[i].charge
  {
    seq(|h|, i requires 0 <= i < |h| => h[i].charge)
  }

  lemma {:induction false} SumsConcat(a: seq<Charge>, b: seq<Charge>, k: string)
    ensures UsdOf(a + b, k) == UsdOf(a, k) + UsdOf(b, k)
    ensures TokensOf(a + b, k) == TokensOf(a, k) + TokensOf(b, k)
    ensures RunsOf(a + b, k) == RunsOf(a, k) + RunsOf(b, k)
  {
    if a == [] {
      assert a + b == b;
    } else {
      SumsConcat(a[1..], b, k);
      assert (a + b)[1..] == a[1..] + b;
    }
  }

  lemma SumsWithout(b: seq<Charge>, i: nat, k: string)
    requires i < |b|
    ensures var rest := b[..i] + b[i + 1..];
      && UsdOf(b, k) == UsdOf(rest, k) + UsdOf([b[i]], k)
      && TokensOf(b, k) == TokensOf(rest, k) + TokensOf([b[i]], k)
      && RunsOf(b, k) == RunsOf(rest, k) + RunsOf([b[i]], k)
  {
    hide UsdOf, TokensOf, RunsOf;
    assert b == b[..i] + ([b[i]] + b[i + 1..]);
    SumsConcat(b[..i], [b[i]] + b[i + 1..], k);
    SumsConcat([b[i]], b[i + 1..], k);
    SumsConcat(b[..i], b[i + 1..], k);
  }

  lemma FindHead(a: seq<Charge>, b: seq<Charge>) returns (i: nat)
    requires a != [] && multiset(a) == multiset(b)
    ensures i < |b| && b[i] == a[0]
    ensures multiset(b[..i] + b[i + 1..]) == multiset(a[1..])
  {
    assert a[0] in multiset(b);
    i :| 0 <= i < |b| && b[i] == a[0];
    assert a == [a[0]] + a[1..];
    assert b == b[..i] + [b[i]] + b[i + 1..];
    assert multiset(b[..i] + b[i + 1..]) == multiset(b) - multiset{a[0]};
  }

  /** The sums depend on the multiset of charges only. */
  lemma {:induction false} SumsOfPermutation(a: seq<Charge>, b: seq<Charge>, k: string)
    requires multiset(a) == multiset(b)
    ensures UsdOf(a, k) == UsdOf(b, k) && TokensOf(a, k) == TokensOf(b, k) && RunsOf(a, k) == RunsOf(b, k)
  {
    if a == [] {
      assert |multiset(b)| == 0;
    } else {
      hide UsdOf, TokensOf, RunsOf;
      var i := FindHead(a, b);
      SumsOfPermutation(a[1..], b[..i] + b[i + 1..], k);
      SumsWithout(a, 0, k);
      SumsWithout(b, i, k);
      assert a[..0] + a[1..] == a[1..];
    }
  }

  /** What a run of spends does to one account: each field grows by the sum over the charges
      of that key, the state follows the final total, and without such a charge nothing changes. */
  ghost predicate Grown(l: Ledger, l': Ledger, cs: seq<Charge>, k: string)
    requires k in l && k in l'
  {
    var a, b := l[k], l'[k];
    && b.spentUSD == a.spentUSD + UsdOf(cs, k)
    && b.spentTokens == a.spentTokens + TokensOf(cs, k)
    && b.runCount == a.runCount + RunsOf(cs, k)
    && b.maxUSD == a.maxUSD && b.softLimitPct == a.softLimitPct && b.nextRenewal == a.nextRenewal
    && b.state == (if RunsOf(cs, k) > 0 then ComputeState(a.maxUSD, a.softLimitPct, b.spentUSD) else a.state)
    && (RunsOf(cs, k) == 0 ==> b == a)
  }

  lemma GrownByOne(l: Ledger, m: Ledger, cs: seq<Charge>, c: Charge, at: Time, k: string)
    requires k in l && k in m && Grown(l, m, cs, k)
    ensures k in Apply(m, Spent(c, at)) && Grown(l, Apply(m, Spent(c, at)), cs + [c], k)
  {
    hide ComputeState;
    SumsConcat(cs, [c], k);
    assert UsdOf([c], k) == if c.LedgerKey() == k then c.usd else 0.0;
    assert TokensOf([c], k) == if c.LedgerKey() == k then c.tokens else 0;
    assert RunsOf([c], k) == if c.LedgerKey() == k then 1 else 0;
  }

  lemma {:induction false} SpendConservation(l: Ledger, h: seq<Event>, k: string)
    requires OnlySpends(h)
    ensures Run(l, h).Keys == l.Keys
    ensures k in l ==> Grown(l, Run(l, h), Charges(h), k)
  {
    if h != [] {
      var init, e := h[..|h| - 1], h[|h| - 1];
      hide Grown;
      SpendConservation(l, init, k);
      assert Charges(h) == Charges(init) + [e.charge];
      if k in l {
        GrownByOne(l, Run(l, init), Charges(init), e.charge, e.at, k);
      }
    }
  }

  // ---------------------------------------------------------------- spends amid other operations

  /** The charges of one key in a log of any operations. */
  function OwnCharges(h: seq<Event>, k: string): seq<Charge> {
    if h == [] then []
    else
      var e := h[|h| - 1];
      OwnCharges(h[..|h| - 1], k) + if e.Spent? && e.LedgerKey() == k then [e.charge] else []
  }

  /** The log only spends from the key; anything may happen to other keys. */
  ghost predicate OnlySpendsFrom(h: seq<Event>, k: string) {
    forall i :: 0 <= i < |h| ==> h[i].LedgerKey() == k ==> h[i].Spent?
  }

  /** No operation of the log spends from the key. */
  ghost predicate NoSpendFrom(h: seq<Event>, k: string) {
    forall i :: 0 <= i < |h| ==> h[i].LedgerKey() == k ==> !h[i].Spent?
  }

  lemma {:induction false} RunsOfOwn(h: seq<Event>, k: string)
    ensures RunsOf(OwnCharges(h, k), k) == |OwnCharges(h, k)|
    ensures OwnCharges(h, k) == [] <==> NoSpendFrom(h, k)
  {
    if h != [] {
      var init, e := h[..|h| - 1], h[|h| - 1];
      RunsOfOwn(init, k);
      if e.Spent? && e.LedgerKey() == k {
        SumsConcat(OwnCharges(init, k), [e.charge], k);
        assert RunsOf([e.charge], k) == 1;
      } else {
        assert OwnCharges(h, k) == OwnCharges(init, k);
      }
    }
  }

  /** The charges of all spends in a log of any operations. */
  function SpentCharges(h: seq<Event>): seq<Charge> {
    if h == [] then []
    else SpentCharges(h[..|h| - 1]) + if h[|h| - 1].Spent? then [h[|h| - 1].charge] else []
  }

  lemma {:induction false} SpentOfSpends(h: seq<Event>)
    requires OnlySpends(h)
    ensures SpentCharges(h) == Charges(h)
  {
    if h != [] {
      SpentOfSpends(h[..|h| - 1]);
    }
  }

  /** A key's own charges are its share of all charges. */
  lemma {:induction false} OwnIsShare(h: seq<Event>, k: string)
    ensures UsdOf(OwnCharges(h, k), k) == UsdOf(SpentCharges(h), k)
    ensures TokensOf(OwnCharges(h, k), k) == TokensOf(SpentCharges(h), k)
    ensures RunsOf(OwnCharges(h, k), k) == RunsOf(SpentCharges(h), k)
  {
    if h != [] {
      var init, e := h[..|h| - 1], h[|h| - 1];
      OwnIsShare(init, k);
      if e.Spent? {
        ShareOfOne(OwnCharges(init, k), SpentCharges(init), e.charge, k);
      }
      assert !(e.Spent? && e.LedgerKey() == k) ==> OwnCharges(h, k) == OwnCharges(init, k);
      assert !e.Spent? ==> SpentCharges(h) == SpentCharges(init);
    }
  }

  lemma ShareOfOne(own: seq<Charge>, all: seq<Charge>, c: Charge, k: string)
    requires UsdOf(own, k) == UsdOf(all, k) && TokensOf(own, k) == TokensOf(all, k) && RunsOf(own, k) == RunsOf(all, k)
    ensures var own' := if c.LedgerKey() == k then own + [c] else own;
      && UsdOf(own', k) == UsdOf(all + [c], k)
      && TokensOf(own', k) == TokensOf(all + [c], k)
      && RunsOf(own', k) == RunsOf(all + [c], k)
  {
    SumsConcat(own, [c], k);
    SumsConcat(all, [c], k);
  }

  /** Other keys' operations do not disturb an account's growth. */
  lemma {:induction false} GrowthAmidOthers(l: Ledger, h: seq<Event>, k: string)
    requires k in l && OnlySpendsFrom(h, k)
    ensures k in Run(l, h) && Grown(l, Run(l, h), OwnCharges(h, k), k)
  {
    if h != [] {
      var init, e := h[..|h| - 1], h[|h| - 1];
      GrowthAmidOthers(l, init, k);
      if e.LedgerKey() == k {
        hide Grown;
        GrownByOne(l, Run(l, init), OwnCharges(init, k), e.charge, e.at, k);
      } else {
        hide ComputeState;
        ApplyFrame(Run(l, init), e, k);
        assert OwnCharges(h, k) == OwnCharges(init, k);
      }
    }
  }

  // ---------------------------------------------------------------- confluence

  /** merged is some interleaving of the threads: each step takes the head of one of them. */
  ghost predicate Interleaving(threads: seq<seq<Charge>>, merged: seq<Charge>)
    decreases |merged|
  {
    if merged == [] then forall t :: 0 <= t < |threads| ==> threads[t] == []
    else exists t :: Takes(threads, merged, t) && Interleaving(threads[t := threads[t][1..]], merged[1..])
  }

  ghost predicate Takes(threads: seq<seq<Charge>>, merged: seq<Charge>, t: int) {
    merged != [] && 0 <= t < |threads| && threads[t] != [] && threads[t][0] == merged[0]
  }

  /** One thread after the other. */
  function Serial(threads: seq<seq<Charge>>): seq<Charge> {
    if threads == [] then [] else threads[0] + Serial(threads[1..])
  }

  lemma {:induction false} SerialOfEmpty(threads: seq<seq<Charge>>)
    requires forall t :: 0 <= t < |threads| ==> threads[t] == []
    ensures Serial(threads) == []
  {
    if threads != [] {
      SerialOfEmpty(threads[1..]);
    }
  }

  lemma {:induction false} SerialTakesHead(threads: seq<seq<Charge>>, t: int)
    requires 0 <= t < |threads| && threads[t] != []
    ensures multiset(Serial(threads)) == multiset{threads[t][0]} + multiset(Serial(threads[t := threads[t][1..]]))
  {
    var after := threads[t := threads[t][1..]];
    if t == 0 {
      assert threads[0] == [threads[0][0]] + threads[0][1..];
      assert after[1..] == threads[1..];
    } else {
      SerialTakesHead(threads[1..], t - 1);
      assert after[1..] == threads[1..][t - 1 := threads[t][1..]];
    }
  }

  lemma {:induction false} InterleavingIsPermutation(threads: seq<seq<Charge>>, merged: seq<Charge>)
    requires Interleaving(threads, merged)
    ensures multiset(merged) == multiset(Serial(threads))
    decreases |merged|
  {
    if merged == [] {
      SerialOfEmpty(threads);
    } else {
      var t :| Takes(threads, merged, t) && Interleaving(threads[t := threads[t][1..]], merged[1..]);
      InterleavingIsPermutation(threads[t := threads[t][1..]], merged[1..]);
      SerialTakesHead(threads, t);
      assert merged == [merged[0]] + merged[1..];
    }
  }

  /** Equal in everything but the time of the last update. */
  predicate SameAccount(a: Account, b: Account) {
    a.(updatedAt := b.updatedAt) == b
  }

  /** Two runs of the same charges in any two orders and at any times agree on every key. */
  lemma PermutationConfluence(l: Ledger, g: seq<Event>, h: seq<Event>, k: string)
    requires OnlySpends(g) && OnlySpends(h)
    requires multiset(Charges(g)) == multiset(Charges(h))
    ensures Run(l, g).Keys == Run(l, h).Keys == l.Keys
    ensures k in l ==> SameAccount(Run(l, g)[k], Run(l, h)[k])
  {
    hide UsdOf, TokensOf, RunsOf, ComputeState, Run;
    SpendConservation(l, g, k);
    SpendConservation(l, h, k);
    SumsOfPermutation(Charges(g), Charges(h), k);
  }

  lemma {:induction false} PresenceKept(l: Ledger, h: seq<Event>, k: string)
    requires OnlySpendsFrom(h, k)
    ensures k in Run(l, h) <==> k in l
  {
    if h != [] {
      var init, e := h[..|h| - 1], h[|h| - 1];
      PresenceKept(l, init, k);
      if e.LedgerKey() != k {
        ApplyFrame(Run(l, init), e, k);
      }
    }
  }

  /** Two logs whose charges of a key are the same in any two orders agree on that key, whatever
      each of them does to other keys. */
  lemma ConfluenceAmidOthers(l: Ledger, g: seq<Event>, h: seq<Event>, k: string)
    requires OnlySpendsFrom(g, k) && OnlySpendsFrom(h, k)
    requires multiset(OwnCharges(g, k)) == multiset(OwnCharges(h, k))
    ensures k in Run(l, g) <==> k in l
    ensures k in Run(l, h) <==> k in l
    ensures k in l ==> SameAccount(Run(l, g)[k], Run(l, h)[k])
  {
    hide UsdOf, TokensOf, RunsOf, OwnCharges, ComputeState, Run;
    PresenceKept(l, g, k);
    PresenceKept(l, h, k);
    if k in l {
      GrowthAmidOthers(l, g, k);
      GrowthAmidOthers(l, h, k);
      SumsOfPermutation(OwnCharges(g, k), OwnCharges(h, k), k);
    }
  }

  /** How often a charge occurs among a key's own is how often it occurs at all. */
  lemma {:induction false} OwnShareOf(h: seq<Event>, k: string, c: Charge)
    ensures multiset(OwnCharges(h, k))[c] == if c.LedgerKey() == k then multiset(SpentCharges(h))[c] else 0
  {
    if h != [] {
      OwnShareOf(h[..|h| - 1], k, c);
    }
  }

  lemma OwnOfPermutation(g: seq<Event>, h: seq<Event>, k: string)
    requires multiset(SpentCharges(g)) == multiset(SpentCharges(h))
    ensures multiset(OwnCharges(g, k)) == multiset(OwnCharges(h, k))
  {
    forall c: Charge ensures multiset(OwnCharges(g, k))[c] == multiset(OwnCharges(h, k))[c] {
      OwnShareOf(g, k, c);
      OwnShareOf(h, k, c);
    }
  }

  /** Concurrent exports: however the spends of several requests interleave, with each other and
      with any operations on other keys, a key's account ends as if the requests had been served
      one after the other and alone. */
  lemma ExportConfluence(l: Ledger, threads: seq<seq<Charge>>, merged: seq<Event>, serial: seq<Event>, k: string)
    requires OnlySpendsFrom(merged, k) && Interleaving(threads, SpentCharges(merged))
    requires OnlySpends(serial) && Charges(serial) == Serial(threads)
    ensures k in Run(l, merged) <==> k in l
    ensures k in Run(l, serial) <==> k in l
    ensures k in l ==> SameAccount(Run(l, merged)[k], Run(l, serial)[k])
    ensures Run(l, serial).Keys == l.Keys
    ensures OnlySpends(merged) ==> Run(l, merged).Keys == l.Keys
  {
    hide Run, OwnCharges, SpentCharges, Interleaving, Serial;
    InterleavingIsPermutation(threads, SpentCharges(merged));
    SpentOfSpends(serial);
    OwnOfPermutation(merged, serial, k);
    ConfluenceAmidOthers(l, merged, serial, k);
    SpendConservation(l, serial, k);
    if OnlySpends(merged) {
      SpendConservation(l, merged, k);
    }
  }

  // ---------------------------------------------------------------- threshold states over runs

  lemma CoherentStep(l: Ledger, e: Event)
    requires e.LedgerKey() in l && (e.Spent? || e.Zeroed?)
    ensures e.LedgerKey() in Apply(l, e) && Coherent(Apply(l, e)[e.LedgerKey()])
  {
    if e.Zeroed? {
      hide ComputeState;
      var a := l[e.LedgerKey()];
      StateThresholds(a.maxUSD, a.softLimitPct, 0.0);
    }
  }

  /** Whatever state Sync installed, the first later spend or reset of the key makes the
      state the one its totals call for, and later ones keep it so. */
  lemma {:induction false} CoherenceRestored(l: Ledger, h: seq<Event>, k: string)
    requires k in l
    requires forall i :: 0 <= i < |h| ==> h[i].LedgerKey() == k ==> h[i].Spent? || h[i].Zeroed?
    requires Coherent(l[k]) || exists i :: 0 <= i < |h| && h[i].LedgerKey() == k
    ensures k in Run(l, h) && Coherent(Run(l, h)[k])
  {
    if h != [] {
      hide Coherent, Apply;
      var init, e := h[..|h| - 1], h[|h| - 1];
      StaysPresent(l, init, k);
      if e.LedgerKey() == k {
        CoherentStep(Run(l, init), e);
      } else {
        assert forall i :: 0 <= i < |h| && h[i].LedgerKey() == k ==> i < |init| && init[i] == h[i];
        CoherenceRestored(l, init, k);
        ApplyFrame(Run(l, init), e, k);
      }
    }
  }

  lemma {:induction false} StaysPresent(l: Ledger, h: seq<Event>, k: string)
    requires k in l
    requires forall i :: 0 <= i < |h| ==> h[i].LedgerKey() == k ==> h[i].Spent? || h[i].Zeroed?
    ensures k in Run(l, h) && Run(l, h)[k].maxUSD == l[k].maxUSD && Run(l, h)[k].nextRenewal == l[k].nextRenewal
  {
    if h != [] {
      var init, e := h[..|h| - 1], h[|h| - 1];
      StaysPresent(l, init, k);
      if e.LedgerKey() != k {
        ApplyFrame(Run(l, init), e, k);
      }
    }
  }

  lemma SeverityStep(l: Ledger, e: Event, k: string)
    requires k in l && Coherent(l[k])
    requires e.LedgerKey() == k ==> e.Spent? && e.charge.usd >= 0.0
    ensures k in Apply(l, e) && Severity(l[k].state) <= Severity(Apply(l, e)[k].state)
  {
    hide ComputeState;
    var a := l[k];
    if e.LedgerKey() == k {
      MoreSpendNoLessSevere(a.maxUSD, a.softLimitPct, a.spentUSD, e.charge.usd);
    } else {
      ApplyFrame(l, e, k);
    }
  }

  /** From a coherent state, non-negative spends never lower the severity, whatever happens to
      other keys meanwhile. */
  lemma {:induction false} SeverityMonotone(l: Ledger, h: seq<Event>, i: nat, k: string)
    requires k in l && Coherent(l[k]) && SpendsUp(h, k) && i <= |h|
    ensures k in Run(l, h[..i]) && k in Run(l, h)
    ensures Severity(Run(l, h[..i])[k].state) <= Severity(Run(l, h)[k].state)
  {
    hide Coherent, Apply, Severity;
    CoherenceRestored(l, h[..i], k);
    if i == |h| {
      assert h[..i] == h;
    } else {
      var init, e := h[..|h| - 1], h[|h| - 1];
      SeverityMonotone(l, init, i, k);
      assert init[..i] == h[..i];
      CoherenceRestored(l, init, k);
      SeverityStep(Run(l, init), e, k);
    }
  }

  ghost predicate ExceededAfter(l: Ledger, h: seq<Event>, k: string, i: nat)
    requires i <= |h|
  {
    k in Run(l, h[..i]) && Run(l, h[..i])[k].state == Exceeded
  }

  lemma CrossingCharge(a: Account, usd: real, tokens: int, now: Time)
    requires Coherent(a) && a.state != Exceeded && Charged(a, usd, tokens, now).state == Exceeded
    ensures a.maxUSD <= Charged(a, usd, tokens, now).spentUSD < a.maxUSD + usd
  {
    StateThresholds(a.maxUSD, a.softLimitPct, a.spentUSD);
    StateThresholds(a.maxUSD, a.softLimitPct, a.spentUSD + usd);
  }

  /** The spend that turns a not yet exceeded account into an exceeded one. */
  lemma CrossingSpend(l: Ledger, h: seq<Event>, k: string)
    requires k in l && Coherent(l[k]) && l[k].state != Exceeded && SpendsUp(h, k) && h != []
    requires ExceededAfter(l, h, k, |h|) && !ExceededAfter(l, h, k, |h| - 1)
    ensures h[|h| - 1].LedgerKey() == k && k in Run(l, h)
    ensures l[k].maxUSD <= Run(l, h)[k].spentUSD < l[k].maxUSD + h[|h| - 1].charge.usd
  {
    hide Coherent, Charged;
    var init, e := h[..|h| - 1], h[|h| - 1];
    assert h[..|h|] == h;
    StaysPresent(l, init, k);
    CoherenceRestored(l, init, k);
    if e.LedgerKey() != k {
      ApplyFrame(Run(l, init), e, k);
    }
    CrossingCharge(Run(l, init)[k], e.charge.usd, e.charge.tokens, e.at);
  }

  lemma ExceededStays(l: Ledger, h: seq<Event>, i: nat, j: nat, k: string)
    requires k in l && Coherent(l[k]) && SpendsUp(h, k) && i <= j <= |h|
    requires ExceededAfter(l, h, k, i)
    ensures ExceededAfter(l, h, k, j)
  {
    SeverityMonotone(l, h[..j], i, k);
    assert h[..j][..i] == h[..i];
    CoherenceRestored(l, h[..j], k);
  }

  lemma ExceededInPrefix(l: Ledger, h: seq<Event>, j: nat, k: string)
    requires j < |h|
    ensures ExceededAfter(l, h[..|h| - 1], k, j) == ExceededAfter(l, h, k, j)
  {
    assert h[..|h| - 1][..j] == h[..j];
  }

  lemma NeverExceededBefore(l: Ledger, h: seq<Event>, j: nat, k: string)
    requires k in l && Coherent(l[k]) && SpendsUp(h, k) && j < |h|
    requires !ExceededAfter(l, h, k, |h| - 1)
    ensures !ExceededAfter(l, h, k, j)
  {
    if ExceededAfter(l, h, k, j) {
      ExceededStays(l, h, j, |h| - 1, k);
    }
  }

  /** Event i is a spend of the key that brings its total to the budget, by less than its own
      cost; before it the account was never Exceeded, and from then on always. */
  ghost predicate CrossesAt(l: Ledger, h: seq<Event>, k: string, i: nat)
    requires k in l
  {
    && i < |h| && h[i].LedgerKey() == k && h[i].Spent?
    && (forall j :: 0 <= j <= |h| ==> (ExceededAfter(l, h, k, j) <==> j > i))
    && k in Run(l, h[..i + 1])
    && l[k].maxUSD <= Run(l, h[..i + 1])[k].spentUSD < l[k].maxUSD + h[i].charge.usd
  }

  lemma CrossesAtExtends(l: Ledger, h: seq<Event>, k: string, i: nat)
    requires k in l && h != [] && CrossesAt(l, h[..|h| - 1], k, i) && ExceededAfter(l, h, k, |h|)
    ensures CrossesAt(l, h, k, i)
  {
    hide Run, ExceededAfter;
    assert h[..|h| - 1][..i + 1] == h[..i + 1];
    forall j | 0 <= j < |h| ensures ExceededAfter(l, h, k, j) <==> j > i {
      ExceededInPrefix(l, h, j, k);
    }
  }

  /** A run that exceeds a budget does so at one spend of its key. */
  lemma {:induction false} BoundedOvershoot(l: Ledger, h: seq<Event>, k: string) returns (i: nat)
    requires k in l && Coherent(l[k]) && l[k].state != Exceeded && SpendsUp(h, k)
    requires ExceededAfter(l, h, k, |h|)
    ensures CrossesAt(l, h, k, i)
    decreases |h|
  {
    assert h[..|h|] == h && h != [];
    if ExceededAfter(l, h, k, |h| - 1) {
      hide Run, Coherent, ExceededAfter, CrossesAt;
      ExceededInPrefix(l, h, |h| - 1, k);
      i := BoundedOvershoot(l, h[..|h| - 1], k);
      CrossesAtExtends(l, h, k, i);
    } else {
      hide Run, Coherent, ExceededAfter;
      i := |h| - 1;
      CrossingSpend(l, h, k);
      forall j | 0 <= j < |h| ensures !ExceededAfter(l, h, k, j) {
        NeverExceededBefore(l, h, j, k);
      }
    }
  }
}
