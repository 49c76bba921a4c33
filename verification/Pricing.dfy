/** The price table: glob patterns tried longest first. */
module Pricing {
  import opened Common

  /** USD per 1,000 tokens. */
  datatype ModelPrice = ModelPrice(inputPer1K: real, outputPer1K: real)
  {
    function Cost(inputTokens: int, outputTokens: int): real {
      (inputTokens as real / 1000.0) * inputPer1K + (outputTokens as real / 1000.0) * outputPer1K
    }
  }

  datatype PriceEntry = PriceEntry(pattern: string, price: ModelPrice)

  /** What a call costs: 1,000 input tokens alone the input rate, 1,000 output tokens alone the
      output rate, and in proportion, counts adding up. */
  lemma CostOfTokens(p: ModelPrice, inputTokens: int, outputTokens: int)
    ensures 1000.0 * p.Cost(inputTokens, outputTokens)
         == inputTokens as real * p.inputPer1K + outputTokens as real * p.outputPer1K
    ensures p.Cost(1000, 0) == p.inputPer1K && p.Cost(0, 1000) == p.outputPer1K
  {
    assert 1000.0 * (inputTokens as real / 1000.0 * p.inputPer1K) == inputTokens as real * p.inputPer1K;
    assert 1000.0 * (outputTokens as real / 1000.0 * p.outputPer1K) == outputTokens as real * p.outputPer1K;
  }

  lemma CostAdds(p: ModelPrice, i: int, o: int, i2: int, o2: int)
    ensures p.Cost(i + i2, o + o2) == p.Cost(i, o) + p.Cost(i2, o2)
  {
    CostOfTokens(p, i, o);
    CostOfTokens(p, i2, o2);
    CostOfTokens(p, i + i2, o + o2);
    assert (i + i2) as real * p.inputPer1K == i as real * p.inputPer1K + i2 as real * p.inputPer1K;
    assert (o + o2) as real * p.outputPer1K == o as real * p.outputPer1K + o2 as real * p.outputPer1K;
  }

  /** path.Match reporting a match and no error, for a pattern and a model name. */
  type Matcher = (string, string) -> bool

  const FALLBACK := ModelPrice(0.003, 0.015)

  // ---------------------------------------------------------------- tables

  ghost predicate Unique(es: seq<PriceEntry>) {
    forall i, j :: 0 <= i < j < |es| ==> es[i].pattern != es[j].pattern
  }

  ghost predicate LongestFirst(es: seq<PriceEntry>) {
    forall i, j :: 0 <= i < j < |es| ==> |es[i].pattern| >= |es[j].pattern|
  }

  /** es lists exactly the entries of prices, each once. */
  ghost predicate Lists(es: seq<PriceEntry>, prices: map<string, ModelPrice>) {
    && Unique(es)
    && (forall i :: 0 <= i < |es| ==> es[i].pattern in prices && es[i].price == prices[es[i].pattern])
    && (forall p :: p in prices ==> PriceEntry(p, prices[p]) in es)
  }

  // ---------------------------------------------------------------- stable sort

  /** Put e behind every entry at least as long. */
  function Insert(es: seq<PriceEntry>, e: PriceEntry): seq<PriceEntry> {
    if es == [] || |es[|es| - 1].pattern| >= |e.pattern| then es + [e]
    else Insert(es[..|es| - 1], e) + [es[|es| - 1]]
  }

  function SortByLength(es: seq<PriceEntry>): seq<PriceEntry> {
    if es == [] then [] else Insert(SortByLength(es[..|es| - 1]), es[|es| - 1])
  }

  function OfLength(es: seq<PriceEntry>, n: nat): seq<PriceEntry> {
    if es == [] then []
    else OfLength(es[..|es| - 1], n) + if |es[|es| - 1].pattern| == n then [es[|es| - 1]] else []
  }

  lemma OfLengthSnoc(es: seq<PriceEntry>, e: PriceEntry, n: nat)
    ensures OfLength(es + [e], n) == OfLength(es, n) + if |e.pattern| == n then [e] else []
  {
    assert (es + [e])[..|es|] == es;
  }

  lemma {:induction false} InsertAdds(es: seq<PriceEntry>, e: PriceEntry)
    ensures multiset(Insert(es, e)) == multiset(es) + multiset{e}
  {
    if es != [] {
      var init, last := es[..|es| - 1], es[|es| - 1];
      assert es == init + [last];
      InsertAdds(init, e);
    }
  }

  lemma {:induction false} InsertLongestFirst(es: seq<PriceEntry>, e: PriceEntry)
    requires LongestFirst(es)
    ensures LongestFirst(Insert(es, e))
    ensures forall i :: 0 <= i < |Insert(es, e)| ==> Insert(es, e)[i] == e || Insert(es, e)[i] in es
  {
    if es != [] && |es[|es| - 1].pattern| < |e.pattern| {
      InsertLongestFirst(es[..|es| - 1], e);
    }
  }

  lemma {:induction false} InsertStable(es: seq<PriceEntry>, e: PriceEntry, n: nat)
    requires LongestFirst(es)
    ensures OfLength(Insert(es, e), n) == OfLength(es + [e], n)
  {
    if es != [] && |es[|es| - 1].pattern| < |e.pattern| {
      var init, last := es[..|es| - 1], es[|es| - 1];
      assert es == init + [last];
      InsertStable(init, e, n);
      OfLengthSnoc(Insert(init, e), last, n);
      OfLengthSnoc(es, e, n);
      OfLengthSnoc(init, last, n);
      OfLengthSnoc(init, e, n);
    }
  }

  /** The result is longest first, has the same entries, and keeps the order among equally
      long patterns: it is the stable sort. */
  lemma {:induction false} SortIsStable(es: seq<PriceEntry>)
    ensures LongestFirst(SortByLength(es)) && multiset(SortByLength(es)) == multiset(es)
    ensures forall n: nat :: OfLength(SortByLength(es), n) == OfLength(es, n)
  {
    if es != [] {
      var init, last := es[..|es| - 1], es[|es| - 1];
      assert es == init + [last];
      SortIsStable(init);
      var sorted := SortByLength(init);
      InsertAdds(sorted, last);
      InsertLongestFirst(sorted, last);
      forall n: nat ensures OfLength(SortByLength(es), n) == OfLength(es, n) {
        InsertStable(sorted, last, n);
        OfLengthSnoc(sorted, last, n);
      }
    }
  }

  /** The last entry is the last of its length, and none of the lengths present is smaller. */
  lemma LastOfLength(es: seq<PriceEntry>, n: nat)
    requires es != [] && LongestFirst(es)
    ensures OfLength(es, n) != [] ==> n >= |es[|es| - 1].pattern|
    ensures var l := OfLength(es, |es[|es| - 1].pattern|); l != [] && l[|l| - 1] == es[|es| - 1]
  {
    if n < |es[|es| - 1].pattern| {
      NoneOfLength(es, n);
    }
  }

  lemma SameInits(es: seq<PriceEntry>, fs: seq<PriceEntry>, n: nat)
    requires es != [] && fs != [] && |es[|es| - 1].pattern| == |fs[|fs| - 1].pattern|
    requires OfLength(es, n) == OfLength(fs, n)
    ensures OfLength(es[..|es| - 1], n) == OfLength(fs[..|fs| - 1], n)
  {
    var a, b := OfLength(es[..|es| - 1], n), OfLength(fs[..|fs| - 1], n);
    if |es[|es| - 1].pattern| == n {
      assert a == OfLength(es, n)[..|OfLength(es, n)| - 1];
      assert b == OfLength(fs, n)[..|OfLength(fs, n)| - 1];
    } else {
      assert a == OfLength(es, n) && b == OfLength(fs, n);
    }
  }

  lemma SameLast(es: seq<PriceEntry>, fs: seq<PriceEntry>, m: nat, n: nat)
    requires es != [] && fs != [] && LongestFirst(es) && LongestFirst(fs)
    requires m == |es[|es| - 1].pattern| && n == |fs[|fs| - 1].pattern|
    requires OfLength(es, m) == OfLength(fs, m) && OfLength(es, n) == OfLength(fs, n)
    ensures es[|es| - 1] == fs[|fs| - 1]
  {
    hide OfLength, LongestFirst;
    LastOfLength(es, n);
    LastOfLength(fs, m);
  }

  /** There is only one: a longest-first table that keeps the order among equally long patterns
      is the sorted one. */
  lemma {:induction false} StableSortUnique(es: seq<PriceEntry>, fs: seq<PriceEntry>)
    requires LongestFirst(es) && LongestFirst(fs) && |es| == |fs|
    requires forall n: nat :: OfLength(es, n) == OfLength(fs, n)
    ensures es == fs
  {
    if es != [] {
      hide OfLength;
      var init, rest := es[..|es| - 1], fs[..|fs| - 1];
      SameLast(es, fs, |es[|es| - 1].pattern|, |fs[|fs| - 1].pattern|);
      forall n: nat ensures OfLength(init, n) == OfLength(rest, n) {
        SameInits(es, fs, n);
      }
      StableSortUnique(init, rest);
      assert es == init + [es[|es| - 1]] && fs == rest + [es[|es| - 1]];
    }
  }

  lemma PermutationLists(es: seq<PriceEntry>, fs: seq<PriceEntry>, prices: map<string, ModelPrice>)
    requires Lists(es, prices) && multiset(es) == multiset(fs)
    ensures Lists(fs, prices)
  {
    forall i | 0 <= i < |fs| ensures fs[i] in es {
      assert fs[i] in multiset(es);
    }
    forall e | e in es ensures e in fs {
      assert e in multiset(fs);
    }
    PermutationUnique(es, fs);
  }

  lemma PermutationUnique(es: seq<PriceEntry>, fs: seq<PriceEntry>)
    requires Unique(es) && multiset(es) == multiset(fs)
    ensures Unique(fs)
  {
    forall i, j | 0 <= i < j < |fs| ensures fs[i].pattern != fs[j].pattern {
      assert fs[i] in multiset(es) && fs[j] in multiset(es);
      if fs[i].pattern == fs[j].pattern {
        assert fs[i] == fs[j];
        TwiceInSeq(fs, i, j);
        OnceInUnique(es, fs[i]);
      }
    }
  }

  lemma TwiceInSeq(es: seq<PriceEntry>, i: nat, j: nat)
    requires i < j < |es| && es[i] == es[j]
    ensures multiset(es)[es[i]] >= 2
  {
    assert es == es[..i] + [es[i]] + es[i + 1..j] + [es[j]] + es[j + 1..];
  }

  lemma {:induction false} OnceInUnique(es: seq<PriceEntry>, e: PriceEntry)
    requires Unique(es)
    ensures multiset(es)[e] <= 1
  {
    if es != [] {
      var init := es[..|es| - 1];
      assert es == init + [es[|es| - 1]];
      OnceInUnique(init, e);
      assert e in multiset(init) <==> e in init;
    }
  }

  // ---------------------------------------------------------------- estimation

  /** The price of the first entry that matches. */
  function FirstMatch(es: seq<PriceEntry>, matches: Matcher, model: string): Option<ModelPrice> {
    if es == [] then None
    else if matches(es[0].pattern, model) then Some(es[0].price)
    else FirstMatch(es[1..], matches, model)
  }

  /** p matches and no longer pattern of the table does. */
  ghost predicate IsMostSpecific(prices: map<string, ModelPrice>, matches: Matcher, model: string, p: string) {
    && p in prices && matches(p, model)
    && forall q :: q in prices && matches(q, model) ==> |q| <= |p|
  }

  lemma {:induction false} FirstMatchAt(es: seq<PriceEntry>, matches: Matcher, model: string) returns (i: nat)
    ensures i <= |es| && forall j :: 0 <= j < i ==> !matches(es[j].pattern, model)
    ensures i < |es| ==> matches(es[i].pattern, model) && FirstMatch(es, matches, model) == Some(es[i].price)
    ensures i == |es| ==> FirstMatch(es, matches, model) == None
  {
    if es == [] || matches(es[0].pattern, model) {
      i := 0;
    } else {
      var j := FirstMatchAt(es[1..], matches, model);
      i := j + 1;
    }
  }

  /** A longest-first table prices a model by one of its longest matching patterns, and by
      none exactly when no pattern matches. */
  lemma MostSpecificWins(es: seq<PriceEntry>, prices: map<string, ModelPrice>, matches: Matcher, model: string)
    requires Lists(es, prices) && LongestFirst(es)
    ensures FirstMatch(es, matches, model) == None <==> forall p :: p in prices ==> !matches(p, model)
    ensures FirstMatch(es, matches, model).Some? ==>
      exists p :: IsMostSpecific(prices, matches, model, p) && FirstMatch(es, matches, model) == Some(prices[p])
  {
    var i := FirstMatchAt(es, matches, model);
    forall q | q in prices && matches(q, model)
      ensures i < |es| && |q| <= |es[i].pattern|
    {
      var j :| 0 <= j < |es| && es[j] == PriceEntry(q, prices[q]);
      assert j >= i;
    }
    if i < |es| {
      assert IsMostSpecific(prices, matches, model, es[i].pattern);
    }
  }

  lemma ListsPrepend(es: seq<PriceEntry>, prices: map<string, ModelPrice>, p: string)
    requires p in prices && Lists(es, prices - {p})
    ensures Lists([PriceEntry(p, prices[p])] + es, prices)
  {
    var fs := [PriceEntry(p, prices[p])] + es;
    forall q | q in prices ensures PriceEntry(q, prices[q]) in fs {
      if q != p {
        assert q in prices - {p} && PriceEntry(q, prices[q]) in es;
      }
    }
  }

  /** Some order in which a map iteration can deliver the table. */
  lemma {:induction false} SomeIteration(prices: map<string, ModelPrice>) returns (es: seq<PriceEntry>)
    ensures Lists(es, prices)
    decreases |prices|
  {
    es := [];
    if prices.Keys != {} {
      var p :| p in prices.Keys;
      es := SomeIteration(prices - {p});
      ListsPrepend(es, prices, p);
      es := [PriceEntry(p, prices[p])] + es;
    } else {
      assert prices == map[];
    }
  }

  lemma {:induction false} NoneOfLength(es: seq<PriceEntry>, n: nat)
    requires forall i :: 0 <= i < |es| ==> |es[i].pattern| != n
    ensures OfLength(es, n) == []
  {
    if es != [] {
      NoneOfLength(es[..|es| - 1], n);
    }
  }

  /** Delivered first, a most specific pattern also stays first among its equals. */
  lemma FirstDeliveredWins(es: seq<PriceEntry>, prices: map<string, ModelPrice>, matches: Matcher, model: string)
    requires Lists(es, prices) && es != [] && IsMostSpecific(prices, matches, model, es[0].pattern)
    ensures FirstMatch(SortByLength(es), matches, model) == Some(es[0].price)
  {
    assert es[0].price == prices[es[0].pattern];
    hide Lists, FirstMatch, OfLength, SortByLength;
    var p := es[0].pattern;
    OverriddenWinner(es, prices, [], matches, model, p);
    FirstHitAt(es, 0, |p|, matches, model);
  }

  /** All most specific patterns carry the same price. */
  ghost predicate Unambiguous(prices: map<string, ModelPrice>, matches: Matcher, model: string) {
    forall p, q :: IsMostSpecific(prices, matches, model, p) && IsMostSpecific(prices, matches, model, q)
      ==> prices[p] == prices[q]
  }

  ghost predicate OrderIndependent(prices: map<string, ModelPrice>, matches: Matcher, model: string) {
    forall es, fs :: Lists(es, prices) && Lists(fs, prices) ==>
      FirstMatch(SortByLength(es), matches, model) == FirstMatch(SortByLength(fs), matches, model)
  }

  /** The estimate is the same for every map iteration order exactly when all most
      specific patterns for the model carry the same price. */
  lemma OrderIndependence(prices: map<string, ModelPrice>, matches: Matcher, model: string)
    ensures OrderIndependent(prices, matches, model) <==> Unambiguous(prices, matches, model)
  {
    hide Lists, FirstMatch, SortByLength;
    OverriddenOrderIndependence(prices, [], matches, model);
    assert forall es: seq<PriceEntry> :: Overridden(es, []) == SortByLength(es);
  }

  // ---------------------------------------------------------------- overriding a price

  /** Where the pattern stands in the table, |es| if nowhere. */
  function PatternIndex(es: seq<PriceEntry>, pattern: string): (i: nat)
    ensures i <= |es| && (i < |es| ==> es[i].pattern == pattern)
    ensures forall j :: 0 <= j < i ==> es[j].pattern != pattern
  {
    if es == [] || es[0].pattern == pattern then 0 else 1 + PatternIndex(es[1..], pattern)
  }

  lemma PatternIndexIs(es: seq<PriceEntry>, pattern: string, i: nat)
    requires i <= |es| && (i < |es| ==> es[i].pattern == pattern)
    requires forall j :: 0 <= j < i ==> es[j].pattern != pattern
    ensures PatternIndex(es, pattern) == i
  {
    var k := PatternIndex(es, pattern);
    assert !(k < i) && !(i < k);
  }

  function WithPrice(es: seq<PriceEntry>, pattern: string, price: ModelPrice): seq<PriceEntry> {
    var i := PatternIndex(es, pattern);
    if i < |es| then es[i := es[i].(price := price)]
    else SortByLength(es + [PriceEntry(pattern, price)])
  }

  lemma AppendLists(es: seq<PriceEntry>, prices: map<string, ModelPrice>, pattern: string, price: ModelPrice)
    requires Lists(es, prices) && pattern !in prices
    ensures Lists(es + [PriceEntry(pattern, price)], prices[pattern := price])
  {
    var fs := es + [PriceEntry(pattern, price)];
    assert fs[|es|] == PriceEntry(pattern, price);
    forall p | p in prices ensures PriceEntry(p, prices[p]) in fs {
      assert PriceEntry(p, prices[p]) in es;
    }
  }

  lemma OverwriteLists(es: seq<PriceEntry>, prices: map<string, ModelPrice>, i: nat, price: ModelPrice)
    requires Lists(es, prices) && i < |es|
    ensures Lists(es[i := es[i].(price := price)], prices[es[i].pattern := price])
  {
    var fs := es[i := es[i].(price := price)];
    assert fs[i] == PriceEntry(es[i].pattern, price);
    forall p | p in prices && p != es[i].pattern ensures PriceEntry(p, prices[p]) in fs {
      var j :| 0 <= j < |es| && es[j] == PriceEntry(p, prices[p]);
      assert fs[j] == es[j];
    }
  }

  /** Set keeps patterns unique and longest first, and is the map update it stands for. */
  lemma SetUpdatesTable(es: seq<PriceEntry>, prices: map<string, ModelPrice>, pattern: string, price: ModelPrice)
    requires Lists(es, prices) && LongestFirst(es)
    ensures Lists(WithPrice(es, pattern, price), prices[pattern := price])
    ensures LongestFirst(WithPrice(es, pattern, price))
  {
    var i := PatternIndex(es, pattern);
    if i < |es| {
      OverwriteLists(es, prices, i, price);
    } else {
      assert pattern !in prices;
      AppendLists(es, prices, pattern, price);
      var fs := es + [PriceEntry(pattern, price)];
      SortIsStable(fs);
      PermutationLists(fs, SortByLength(fs), prices[pattern := price]);
    }
  }

  /** The table after a sequence of Set calls, oldest first. */
  function WithPrices(es: seq<PriceEntry>, sets: seq<PriceEntry>): seq<PriceEntry> {
    if sets == [] then es
    else
      var last := sets[|sets| - 1];
      WithPrice(WithPrices(es, sets[..|sets| - 1]), last.pattern, last.price)
  }

  function UpdatedPrices(prices: map<string, ModelPrice>, sets: seq<PriceEntry>): map<string, ModelPrice> {
    if sets == [] then prices
    else UpdatedPrices(prices, sets[..|sets| - 1])[sets[|sets| - 1].pattern := sets[|sets| - 1].price]
  }

  lemma {:induction false} OverridesKeepTable(es: seq<PriceEntry>, prices: map<string, ModelPrice>, sets: seq<PriceEntry>)
    requires Lists(es, prices) && LongestFirst(es)
    ensures Lists(WithPrices(es, sets), UpdatedPrices(prices, sets)) && LongestFirst(WithPrices(es, sets))
  {
    if sets != [] {
      hide Lists, LongestFirst, WithPrice;
      var init, last := sets[..|sets| - 1], sets[|sets| - 1];
      OverridesKeepTable(es, prices, init);
      SetUpdatesTable(WithPrices(es, init), UpdatedPrices(prices, init), last.pattern, last.price);
    }
  }

  /** From any delivered table and any overrides: unique patterns, longest first, and each
      model priced by a longest matching pattern at the price set last. */
  lemma OverridesKeepMostSpecific(es: seq<PriceEntry>, prices: map<string, ModelPrice>,
      sets: seq<PriceEntry>, matches: Matcher, model: string)
    requires Lists(es, prices) && LongestFirst(es)
    ensures Lists(WithPrices(es, sets), UpdatedPrices(prices, sets)) && LongestFirst(WithPrices(es, sets))
    ensures var now, r := UpdatedPrices(prices, sets), FirstMatch(WithPrices(es, sets), matches, model);
      && (r == None <==> forall p :: p in now ==> !matches(p, model))
      && (r.Some? ==> exists p :: IsMostSpecific(now, matches, model, p) && r == Some(now[p]))
  {
    OverridesKeepTable(es, prices, sets);
    MostSpecificWins(WithPrices(es, sets), UpdatedPrices(prices, sets), matches, model);
  }

  // ---------------------------------------------------------------- order and overrides

  /** The patterns of one length, in table order. */
  function Names(es: seq<PriceEntry>, n: nat): seq<string> {
    if es == [] then []
    else
      var p := es[|es| - 1].pattern;
      Names(es[..|es| - 1], n) + if |p| == n then [p] else []
  }

  function FirstHit(ps: seq<string>, matches: Matcher, model: string): Option<string> {
    if ps == [] then None
    else
      var hit := FirstHit(ps[..|ps| - 1], matches, model);
      if hit.Some? then hit
      else if matches(ps[|ps| - 1], model) then Some(ps[|ps| - 1]) else None
  }

  lemma {:induction false} FirstHitConcat(a: seq<string>, b: seq<string>, matches: Matcher, model: string)
    ensures FirstHit(a + b, matches, model)
         == if FirstHit(a, matches, model).Some? then FirstHit(a, matches, model) else FirstHit(b, matches, model)
  {
    if b == [] {
      assert a + b == a;
    } else {
      assert (a + b)[..|a + b| - 1] == a + b[..|b| - 1];
      FirstHitConcat(a, b[..|b| - 1], matches, model);
    }
  }

  lemma {:induction false} HitAmong(ps: seq<string>, matches: Matcher, model: string)
    ensures var hit := FirstHit(ps, matches, model);
      && (hit.Some? ==> hit.value in ps && matches(hit.value, model))
      && (hit.None? ==> forall p :: p in ps ==> !matches(p, model))
  {
    if ps != [] {
      HitAmong(ps[..|ps| - 1], matches, model);
    }
  }

  lemma {:induction false} NamesAre(es: seq<PriceEntry>, n: nat, p: string)
    ensures p in Names(es, n) <==> |p| == n && exists i :: 0 <= i < |es| && es[i].pattern == p
  {
    if es != [] {
      NamesAre(es[..|es| - 1], n, p);
      assert p == es[|es| - 1].pattern ==> exists i :: 0 <= i < |es| && es[i].pattern == p;
    }
  }

  lemma {:induction false} NamesOfLength(es: seq<PriceEntry>, fs: seq<PriceEntry>, n: nat)
    requires OfLength(es, n) == OfLength(fs, n)
    ensures Names(es, n) == Names(fs, n)
  {
    NamesAreThose(es, n);
    NamesAreThose(fs, n);
  }

  function Patterns(es: seq<PriceEntry>): seq<string> {
    if es == [] then [] else Patterns(es[..|es| - 1]) + [es[|es| - 1].pattern]
  }

  lemma {:induction false} NamesAreThose(es: seq<PriceEntry>, n: nat)
    ensures Names(es, n) == Patterns(OfLength(es, n))
  {
    if es != [] {
      NamesAreThose(es[..|es| - 1], n);
      var l := OfLength(es, n);
      if |es[|es| - 1].pattern| == n {
        assert l[..|l| - 1] == OfLength(es[..|es| - 1], n);
      } else {
        assert l == OfLength(es[..|es| - 1], n);
      }
    }
  }

  /** The first matching entry of a length is the first hit among the patterns of that length. */
  lemma {:induction false} FirstHitAt(es: seq<PriceEntry>, i: nat, n: nat, matches: Matcher, model: string)
    requires i < |es| && |es[i].pattern| == n && matches(es[i].pattern, model)
    requires forall j :: 0 <= j < i ==> !matches(es[j].pattern, model)
    ensures FirstHit(Names(es, n), matches, model) == Some(es[i].pattern)
  {
    var init := es[..|es| - 1];
    if i < |init| {
      FirstHitAt(init, i, n, matches, model);
      FirstHitConcat(Names(init, n), Names(es, n)[|Names(init, n)|..], matches, model);
      assert Names(es, n) == Names(init, n) + Names(es, n)[|Names(init, n)|..];
    } else {
      NoHit(init, n, matches, model);
      assert Names(es, n)[..|Names(es, n)| - 1] == Names(init, n);
    }
  }

  lemma {:induction false} NoHit(es: seq<PriceEntry>, n: nat, matches: Matcher, model: string)
    requires forall j :: 0 <= j < |es| ==> !matches(es[j].pattern, model)
    ensures FirstHit(Names(es, n), matches, model) == None
  {
    HitAmong(Names(es, n), matches, model);
    if FirstHit(Names(es, n), matches, model).Some? {
      NamesAre(es, n, FirstHit(Names(es, n), matches, model).value);
    }
  }

  /** The patterns of a length that the Set calls add, in the order they first name them. */
  function Added(known: set<string>, sets: seq<PriceEntry>, n: nat): seq<string> {
    if sets == [] then []
    else
      var init, p := sets[..|sets| - 1], sets[|sets| - 1].pattern;
      Added(known, init, n) + if |p| == n && p !in known && !Named(init, p) then [p] else []
  }

  predicate Named(sets: seq<PriceEntry>, p: string) {
    exists i :: 0 <= i < |sets| && sets[i].pattern == p
  }

  lemma {:induction false} UpdatedNames(prices: map<string, ModelPrice>, sets: seq<PriceEntry>, p: string)
    ensures p in UpdatedPrices(prices, sets) <==> p in prices || Named(sets, p)
  {
    if sets != [] {
      UpdatedNames(prices, sets[..|sets| - 1], p);
      assert p == sets[|sets| - 1].pattern ==> Named(sets, p);
      assert Named(sets[..|sets| - 1], p) ==> Named(sets, p);
    }
  }

  lemma {:induction false} OverwriteNames(es: seq<PriceEntry>, i: nat, price: ModelPrice, n: nat)
    requires i < |es|
    ensures Names(es[i := es[i].(price := price)], n) == Names(es, n)
  {
    var fs, init := es[i := es[i].(price := price)], es[..|es| - 1];
    if i < |init| {
      OverwriteNames(init, i, price, n);
      assert fs[..|fs| - 1] == init[i := init[i].(price := price)];
    } else {
      assert fs[..|fs| - 1] == init;
    }
  }

  lemma KnownIndex(es: seq<PriceEntry>, prices: map<string, ModelPrice>, p: string)
    requires Lists(es, prices)
    ensures PatternIndex(es, p) < |es| <==> p in prices
  {
    if p in prices {
      var j :| 0 <= j < |es| && es[j] == PriceEntry(p, prices[p]);
    }
  }

  lemma AppendNames(es: seq<PriceEntry>, e: PriceEntry, n: nat)
    ensures Names(SortByLength(es + [e]), n) == Names(es, n) + if |e.pattern| == n then [e.pattern] else []
  {
    hide OfLength, SortByLength, LongestFirst;
    SortIsStable(es + [e]);
    NamesOfLength(SortByLength(es + [e]), es + [e], n);
    assert (es + [e])[..|es|] == es;
  }

  lemma SetNames(es: seq<PriceEntry>, prices: map<string, ModelPrice>, p: string, price: ModelPrice, n: nat)
    requires Lists(es, prices)
    ensures Names(WithPrice(es, p, price), n) == Names(es, n) + if |p| == n && p !in prices then [p] else []
  {
    hide Names, Lists, PatternIndex, SortByLength;
    var i := PatternIndex(es, p);
    KnownIndex(es, prices, p);
    if i < |es| {
      OverwriteNames(es, i, price, n);
    } else {
      AppendNames(es, PriceEntry(p, price), n);
    }
  }

  lemma AddedSnoc(known: set<string>, sets: seq<PriceEntry>, n: nat)
    requires sets != []
    ensures var init, p := sets[..|sets| - 1], sets[|sets| - 1].pattern;
      Added(known, sets, n) == Added(known, init, n) + if |p| == n && !(p in known || Named(init, p)) then [p] else []
  {
  }

  /** Patterns added by Set stand behind the delivered ones of their length. */
  lemma {:induction false} NamesAfterSets(es: seq<PriceEntry>, prices: map<string, ModelPrice>, sets: seq<PriceEntry>, n: nat)
    requires Lists(es, prices) && LongestFirst(es)
    ensures Names(WithPrices(es, sets), n) == Names(es, n) + Added(prices.Keys, sets, n)
  {
    hide Names, Lists, LongestFirst, WithPrice, Named;
    if sets != [] {
      hide Added;
      var init, last := sets[..|sets| - 1], sets[|sets| - 1];
      NamesAfterSets(es, prices, init, n);
      OverridesKeepTable(es, prices, init);
      SetNames(WithPrices(es, init), UpdatedPrices(prices, init), last.pattern, last.price, n);
      UpdatedNames(prices, init, last.pattern);
      AddedSnoc(prices.Keys, sets, n);
    }
  }

  lemma FirstMatchIsMostSpecific(es: seq<PriceEntry>, prices: map<string, ModelPrice>, matches: Matcher, model: string, p: string)
      returns (i: nat)
    requires Lists(es, prices) && LongestFirst(es) && IsMostSpecific(prices, matches, model, p)
    ensures i < |es| && matches(es[i].pattern, model) && forall j :: 0 <= j < i ==> !matches(es[j].pattern, model)
    ensures |es[i].pattern| == |p| && es[i].pattern in prices
    ensures FirstMatch(es, matches, model) == Some(prices[es[i].pattern])
  {
    var at :| 0 <= at < |es| && es[at] == PriceEntry(p, prices[p]);
    i := FirstMatchAt(es, matches, model);
    assert i <= at;
    assert es[i].pattern in prices && |es[i].pattern| <= |p|;
    assert |es[i].pattern| >= |es[at].pattern|;
  }

  /** In a longest-first table a model is priced by the first hit among the patterns as long as
      its most specific one. */
  lemma FirstHitWins(es: seq<PriceEntry>, prices: map<string, ModelPrice>, matches: Matcher, model: string, p: string)
    requires Lists(es, prices) && LongestFirst(es) && IsMostSpecific(prices, matches, model, p)
    ensures var hit := FirstHit(Names(es, |p|), matches, model);
      hit.Some? && hit.value in prices && FirstMatch(es, matches, model) == Some(prices[hit.value])
  {
    hide Lists, LongestFirst, IsMostSpecific, Names, FirstHit, FirstMatch;
    var i := FirstMatchIsMostSpecific(es, prices, matches, model, p);
    FirstHitAt(es, i, |p|, matches, model);
  }

  /** The table after an iteration order and a sequence of Set calls. */
  function Overridden(es: seq<PriceEntry>, sets: seq<PriceEntry>): seq<PriceEntry> {
    WithPrices(SortByLength(es), sets)
  }

  ghost predicate OrderIndependentAfter(prices: map<string, ModelPrice>, sets: seq<PriceEntry>, matches: Matcher, model: string) {
    forall es, fs :: Lists(es, prices) && Lists(fs, prices) ==>
      FirstMatch(Overridden(es, sets), matches, model) == FirstMatch(Overridden(fs, sets), matches, model)
  }

  /** All most specific patterns that the map iteration delivered carry the same price now. */
  ghost predicate UnambiguousAfter(prices: map<string, ModelPrice>, sets: seq<PriceEntry>, matches: Matcher, model: string) {
    var now := UpdatedPrices(prices, sets);
    forall p, q ::
      p in prices && q in prices && IsMostSpecific(now, matches, model, p) && IsMostSpecific(now, matches, model, q)
      ==> now[p] == now[q]
  }

  lemma OverriddenWinner(es: seq<PriceEntry>, prices: map<string, ModelPrice>, sets: seq<PriceEntry>,
      matches: Matcher, model: string, p: string)
    requires Lists(es, prices) && IsMostSpecific(UpdatedPrices(prices, sets), matches, model, p)
    ensures var now := UpdatedPrices(prices, sets);
      var own, added := FirstHit(Names(es, |p|), matches, model), FirstHit(Added(prices.Keys, sets, |p|), matches, model);
      var hit := if own.Some? then own else added;
      hit.Some? && hit.value in now && FirstMatch(Overridden(es, sets), matches, model) == Some(now[hit.value])
  {
    hide Names, FirstHit, FirstMatch, IsMostSpecific;
    var table := SortByLength(es);
    SortIsStable(es);
    PermutationLists(es, table, prices);
    NamesOfLength(table, es, |p|);
    NamesAfterSets(table, prices, sets, |p|);
    OverridesKeepTable(table, prices, sets);
    FirstHitWins(Overridden(es, sets), UpdatedPrices(prices, sets), matches, model, p);
    FirstHitConcat(Names(es, |p|), Added(prices.Keys, sets, |p|), matches, model);
  }

  /** A delivered most specific pattern wins in the order that delivers it first. */
  lemma DeliveredFirstWins(prices: map<string, ModelPrice>, sets: seq<PriceEntry>,
      matches: Matcher, model: string, p: string) returns (es: seq<PriceEntry>)
    requires p in prices && IsMostSpecific(UpdatedPrices(prices, sets), matches, model, p)
    ensures Lists(es, prices)
    ensures FirstMatch(Overridden(es, sets), matches, model) == Some(UpdatedPrices(prices, sets)[p])
  {
    var rest := SomeIteration(prices - {p});
    ListsPrepend(rest, prices, p);
    es := [PriceEntry(p, prices[p])] + rest;
    OverriddenWinner(es, prices, sets, matches, model, p);
    FirstHitAt(es, 0, |p|, matches, model);
  }

  /** Two orders price a model alike when its delivered most specific patterns agree. */
  lemma SamePriceInAnyOrder(es: seq<PriceEntry>, fs: seq<PriceEntry>, prices: map<string, ModelPrice>,
      sets: seq<PriceEntry>, matches: Matcher, model: string)
    requires Lists(es, prices) && Lists(fs, prices) && UnambiguousAfter(prices, sets, matches, model)
    ensures FirstMatch(Overridden(es, sets), matches, model) == FirstMatch(Overridden(fs, sets), matches, model)
  {
    var now := UpdatedPrices(prices, sets);
    if p :| IsMostSpecific(now, matches, model, p) {
      OverriddenWinner(es, prices, sets, matches, model, p);
      OverriddenWinner(fs, prices, sets, matches, model, p);
      DeliveredHit(es, prices, sets, matches, model, p);
      DeliveredHit(fs, prices, sets, matches, model, p);
      HitsAgree(es, fs, prices, |p|, matches, model);
    } else {
      NoneMostSpecific(es, prices, sets, matches, model);
      NoneMostSpecific(fs, prices, sets, matches, model);
    }
  }

  lemma DeliveredHit(es: seq<PriceEntry>, prices: map<string, ModelPrice>, sets: seq<PriceEntry>,
      matches: Matcher, model: string, p: string)
    requires Lists(es, prices) && IsMostSpecific(UpdatedPrices(prices, sets), matches, model, p)
    ensures var hit := FirstHit(Names(es, |p|), matches, model);
      hit.Some? ==> hit.value in prices && IsMostSpecific(UpdatedPrices(prices, sets), matches, model, hit.value)
  {
    HitAmong(Names(es, |p|), matches, model);
    var hit := FirstHit(Names(es, |p|), matches, model);
    if hit.Some? {
      NamesAre(es, |p|, hit.value);
      UpdatedNames(prices, sets, hit.value);
    }
  }

  lemma HitsAgree(es: seq<PriceEntry>, fs: seq<PriceEntry>, prices: map<string, ModelPrice>, n: nat,
      matches: Matcher, model: string)
    requires Lists(es, prices) && Lists(fs, prices)
    ensures FirstHit(Names(es, n), matches, model).Some? <==> FirstHit(Names(fs, n), matches, model).Some?
  {
    HitCarries(es, fs, prices, n, matches, model);
    HitCarries(fs, es, prices, n, matches, model);
  }

  lemma HitCarries(es: seq<PriceEntry>, fs: seq<PriceEntry>, prices: map<string, ModelPrice>, n: nat,
      matches: Matcher, model: string)
    requires Lists(es, prices) && Lists(fs, prices)
    ensures FirstHit(Names(es, n), matches, model).Some? ==> FirstHit(Names(fs, n), matches, model).Some?
  {
    HitAmong(Names(es, n), matches, model);
    HitAmong(Names(fs, n), matches, model);
    var hit := FirstHit(Names(es, n), matches, model);
    if hit.Some? {
      NamesAre(es, n, hit.value);
      NamesAre(fs, n, hit.value);
      var j :| 0 <= j < |fs| && fs[j] == PriceEntry(hit.value, prices[hit.value]);
    }
  }

  lemma NoneMostSpecific(es: seq<PriceEntry>, prices: map<string, ModelPrice>, sets: seq<PriceEntry>,
      matches: Matcher, model: string)
    requires Lists(es, prices) && forall p :: !IsMostSpecific(UpdatedPrices(prices, sets), matches, model, p)
    ensures FirstMatch(Overridden(es, sets), matches, model) == None
  {
    var table := SortByLength(es);
    SortIsStable(es);
    PermutationLists(es, table, prices);
    OverridesKeepMostSpecific(table, prices, sets, matches, model);
  }

  /** After any Set calls the estimate is the same for every map iteration order exactly when
      the most specific patterns that the iteration delivered carry one price: those that Set
      added stand behind them, in an order of their own. */
  lemma OverriddenOrderIndependence(prices: map<string, ModelPrice>, sets: seq<PriceEntry>, matches: Matcher, model: string)
    ensures OrderIndependentAfter(prices, sets, matches, model) <==> UnambiguousAfter(prices, sets, matches, model)
  {
    hide Lists, FirstMatch, Overridden;
    if UnambiguousAfter(prices, sets, matches, model) {
      forall es, fs | Lists(es, prices) && Lists(fs, prices)
        ensures FirstMatch(Overridden(es, sets), matches, model) == FirstMatch(Overridden(fs, sets), matches, model)
      {
        SamePriceInAnyOrder(es, fs, prices, sets, matches, model);
      }
    }
    if OrderIndependentAfter(prices, sets, matches, model) {
      var now := UpdatedPrices(prices, sets);
      forall p, q | p in prices && q in prices
        && IsMostSpecific(now, matches, model, p) && IsMostSpecific(now, matches, model, q)
        ensures q in now && p in now && now[p] == now[q]
      {
        var es := DeliveredFirstWins(prices, sets, matches, model, p);
        var fs := DeliveredFirstWins(prices, sets, matches, model, q);
      }
    }
  }

  /** A table, the rate for models it does not know, and the glob relation. */
  datatype Tariff = Rates(entries: seq<PriceEntry>, fallback: ModelPrice, matches: Matcher)
  {
    function Usd(model: string, inputTokens: int, outputTokens: int): real {
      var price := match FirstMatch(entries, matches, model)
        case Some(p) => p
        case None => fallback;
      price.Cost(inputTokens, outputTokens)
    }
  }

  /** The price a model is charged at: that of the first entry whose pattern matches, the
      fallback when none does. */
  ghost predicate ChargedAt(t: Tariff, model: string, price: ModelPrice) {
    || (exists i :: 0 <= i < |t.entries| && t.matches(t.entries[i].pattern, model) && price == t.entries[i].price
                    && forall j :: 0 <= j < i ==> !t.matches(t.entries[j].pattern, model))
    || (price == t.fallback && forall j :: 0 <= j < |t.entries| ==> !t.matches(t.entries[j].pattern, model))
  }

  lemma UsdIsCharge(t: Tariff, model: string, inputTokens: int, outputTokens: int) returns (price: ModelPrice)
    ensures ChargedAt(t, model, price)
    ensures 1000.0 * t.Usd(model, inputTokens, outputTokens)
         == inputTokens as real * price.inputPer1K + outputTokens as real * price.outputPer1K
    ensures FirstMatch(t.entries, t.matches, model).Some? <==>
      exists i :: 0 <= i < |t.entries| && t.matches(t.entries[i].pattern, model)
  {
    var i := FirstMatchAt(t.entries, t.matches, model);
    price := if i < |t.entries| then t.entries[i].price else t.fallback;
    CostOfTokens(price, inputTokens, outputTokens);
  }

  /** The rate of a longest matching pattern, the fallback rate when none matches. */
  ghost predicate SpecificRate(prices: map<string, ModelPrice>, fallback: ModelPrice, matches: Matcher, model: string, price: ModelPrice) {
    || (exists p :: p in prices && matches(p, model) && price == prices[p]
                    && forall q :: q in prices && matches(q, model) ==> |q| <= |p|)
    || (price == fallback && forall q :: q in prices ==> !matches(q, model))
  }

  /** A model costs the rate of a longest matching pattern for its input and output tokens. */
  lemma CostAtSpecificRate(t: Tariff, prices: map<string, ModelPrice>, model: string, inputTokens: int, outputTokens: int)
      returns (price: ModelPrice)
    requires Lists(t.entries, prices) && LongestFirst(t.entries)
    ensures SpecificRate(prices, t.fallback, t.matches, model, price)
    ensures 1000.0 * t.Usd(model, inputTokens, outputTokens)
         == inputTokens as real * price.inputPer1K + outputTokens as real * price.outputPer1K
  {
    MostSpecificWins(t.entries, prices, t.matches, model);
    var m := FirstMatch(t.entries, t.matches, model);
    price := if m.Some? then m.value else t.fallback;
    CostOfTokens(price, inputTokens, outputTokens);
  }

  // ---------------------------------------------------------------- the estimator

  class Estimator {
    var entries: seq<PriceEntry>
    const fallback: ModelPrice
    const matches: Matcher

    /** What an estimate depends on. */
    ghost function Tariff(): Tariff
      reads this
    {
      Rates(entries, fallback, matches)
    }

    ghost predicate Valid()
      reads this
    {
      Unique(entries) && LongestFirst(entries)
    }

    /** The entries arrive in whatever order the map iteration takes. */
    constructor (prices: map<string, ModelPrice>, matches: Matcher)
      ensures Valid() && Lists(entries, prices)
      ensures this.matches == matches && fallback == ModelPrice(0.003, 0.015)
    {
      this.fallback := FALLBACK;
      this.matches := matches;
      var es: seq<PriceEntry> := [];
      var pending := prices.Keys;
      while pending != {}
        invariant pending <= prices.Keys
        invariant Lists(es, map p | p in prices && p !in pending :: prices[p])
      {
        var p :| p in pending;
        es := es + [PriceEntry(p, prices[p])];
        pending := pending - {p};
      }
      assert prices == map p | p in prices && p !in pending :: prices[p];
      entries := SortByLength(es);
      new;
      SortIsStable(es);
      PermutationLists(es, entries, prices);
    }

    method Resort()
      requires Unique(entries)
      modifies this`entries
      ensures Valid() && multiset(entries) == multiset(old(entries))
      ensures forall n: nat :: OfLength(entries, n) == OfLength(old(entries), n)
    {
      hide OfLength, SortByLength, Unique, LongestFirst;
      SortIsStable(entries);
      PermutationUnique(entries, SortByLength(entries));
      entries := SortByLength(entries);
    }

    /** Overwrites the price of a known pattern, adds an unknown one. */
    method Set(pattern: string, price: ModelPrice)
      requires Valid()
      modifies this`entries
      ensures Valid() && entries == WithPrice(old(entries), pattern, price)
    {
      var i := 0;
      while i < |entries|
        invariant i <= |entries| && entries == old(entries)
        invariant forall j :: 0 <= j < i ==> entries[j].pattern != pattern
      {
        if entries[i].pattern == pattern {
          PatternIndexIs(entries, pattern, i);
          entries := entries[i := entries[i].(price := price)];
          return;
        }
        i := i + 1;
      }
      PatternIndexIs(entries, pattern, i);
      entries := entries + [PriceEntry(pattern, price)];
      ghost var unsorted := entries;
      Resort();
      SortIsStable(unsorted);
      assert |multiset(entries)| == |multiset(SortByLength(unsorted))|;
      StableSortUnique(entries, SortByLength(unsorted));
    }

    method Estimate(model: string, inputTokens: int, outputTokens: int) returns (usd: real, matched: bool)
      ensures matched <==> exists i :: 0 <= i < |entries| && matches(entries[i].pattern, model)
      ensures exists price ::
        && ChargedAt(Tariff(), model, price)
        && 1000.0 * usd == inputTokens as real * price.inputPer1K + outputTokens as real * price.outputPer1K
      ensures usd == Tariff().Usd(model, inputTokens, outputTokens)
    {
      hide ChargedAt, ModelPrice.Cost;
      ghost var price := UsdIsCharge(Tariff(), model, inputTokens, outputTokens);
      var i := 0;
      while i < |entries|
        invariant i <= |entries|
        invariant FirstMatch(entries, matches, model) == FirstMatch(entries[i..], matches, model)
      {
        if matches(entries[i].pattern, model) {
          return entries[i].price.Cost(inputTokens, outputTokens), true;
        }
        i := i + 1;
      }
      return fallback.Cost(inputTokens, outputTokens), false;
    }
  }
}
