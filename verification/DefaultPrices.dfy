/** The built-in price table, the globs it uses, and what its rates bound. */
module DefaultPrices {
  import opened Common
  import opened QuotaApi
  import opened Pricing
  import opened LedgerSpec
  import opened SpendRuns

  const DEFAULT_PRICES: map<string, ModelPrice> := map[
    "claude-haiku-4-5*" := ModelPrice(0.00025, 0.00125),
    "claude-haiku-4.5*" := ModelPrice(0.00025, 0.00125),
    "claude-sonnet-5*" := ModelPrice(0.003, 0.015),
    "claude-opus-5*" := ModelPrice(0.015, 0.075),
    "gemini-*-flash*" := ModelPrice(0.000075, 0.0003),
    "gemini-*-pro*" := ModelPrice(0.00125, 0.005),
    "gpt-4o-mini*" := ModelPrice(0.00015, 0.0006),
    "gpt-4o*" := ModelPrice(0.0025, 0.01)
  ]

  /** path.Match on patterns made of literal characters and stars; a star does not cross '/'. */
  predicate Glob(pattern: string, s: string)
    decreases |pattern| + |s|
  {
    if pattern == "" then s == ""
    else if pattern[0] == '*' then
      Glob(pattern[1..], s) || (s != "" && s[0] != '/' && Glob(pattern, s[1..]))
    else s != "" && s[0] == pattern[0] && Glob(pattern[1..], s[1..])
  }

  /** A match begins with the literal characters the pattern begins with. */
  lemma {:induction false} GlobLiteralPrefix(pattern: string, s: string, i: nat)
    requires Glob(pattern, s)
    requires i < |pattern| && forall j :: 0 <= j <= i ==> pattern[j] != '*'
    ensures i < |s| && s[i] == pattern[i]
  {
    if i > 0 {
      assert forall j :: 0 <= j <= i - 1 ==> pattern[1..][j] == pattern[j + 1];
      GlobLiteralPrefix(pattern[1..], s[1..], i - 1);
    }
  }

  const HAIKU_DASH := "claude-haiku-4-5*"
  const HAIKU_DOT := "claude-haiku-4.5*"

  function DefaultLength(p: string): (n: nat)
    requires p in DEFAULT_PRICES
    ensures n == |p|
    ensures p != HAIKU_DASH && p != HAIKU_DOT ==> n != 17
  {
    if p == HAIKU_DASH then 17
    else if p == HAIKU_DOT then 17
    else if p == "claude-sonnet-5*" then 16
    else if p == "claude-opus-5*" then 14
    else if p == "gemini-*-flash*" then 15
    else if p == "gemini-*-pro*" then 13
    else if p == "gpt-4o-mini*" then 12
    else 7
  }

  lemma OnlyHaikusAlike(p: string, q: string)
    requires p in DEFAULT_PRICES && q in DEFAULT_PRICES && |p| == |q| && p != q
    ensures (p == HAIKU_DASH && q == HAIKU_DOT) || (p == HAIKU_DOT && q == HAIKU_DASH)
  {
    var n := DefaultLength(p);
    var m := DefaultLength(q);
  }

  /** Patterns that differ in a literal character, with only literals before it, are disjoint. */
  lemma LiteralsDisjoint(p: string, q: string, model: string, i: nat)
    requires i < |p| && i < |q| && p[i] != q[i]
    requires forall j :: 0 <= j <= i ==> p[j] != '*' && q[j] != '*'
    ensures !(Glob(p, model) && Glob(q, model))
  {
    if Glob(p, model) && Glob(q, model) {
      GlobLiteralPrefix(p, model, i);
      GlobLiteralPrefix(q, model, i);
    }
  }

  /** Two equally long default patterns never match the same model. */
  lemma DefaultPatternsDisjoint(p: string, q: string, model: string)
    requires p in DEFAULT_PRICES && q in DEFAULT_PRICES && |p| == |q|
    requires Glob(p, model) && Glob(q, model)
    ensures p == q
  {
    hide Glob;
    if p != q {
      OnlyHaikusAlike(p, q);
      LiteralsDisjoint(p, q, model, 14);
    }
  }

  /** The default table prices every model the same in every map iteration order. */
  lemma DefaultTableDeterministic(model: string)
    ensures OrderIndependent(DEFAULT_PRICES, Glob, model)
  {
    forall p, q | IsMostSpecific(DEFAULT_PRICES, Glob, model, p) && IsMostSpecific(DEFAULT_PRICES, Glob, model, q)
      ensures p == q
    {
      DefaultPatternsDisjoint(p, q, model);
    }
    OrderIndependence(DEFAULT_PRICES, Glob, model);
  }

  /** A table that does depend on the order: both globs match "ab" and neither is longer. */
  lemma GlobsCanDependOnOrder(a: ModelPrice, b: ModelPrice)
    requires a != b
    ensures !OrderIndependent(map["ab*" := a, "a*b" := b], Glob, "ab")
  {
    var prices := map["ab*" := a, "a*b" := b];
    assert Glob("ab*", "ab") by { assert Glob("", "") && Glob("*", ""); }
    assert Glob("a*b", "ab") by { assert Glob("b", "b"); }
    assert IsMostSpecific(prices, Glob, "ab", "ab*") && IsMostSpecific(prices, Glob, "ab", "a*b");
    OrderIndependence(prices, Glob, "ab");
  }

  // ---------------------------------------------------------------- what each model costs

  predicate Starts(s: string, lit: string) {
    |lit| <= |s| && s[..|lit|] == lit
  }

  /** The literal, then anything without a slash. */
  predicate Family(lit: string, model: string) {
    Starts(model, lit) && '/' !in model[|lit|..]
  }

  /** The literal, then the other one somewhere, without a slash around it. */
  ghost predicate FamilyWith(lit: string, other: string, model: string) {
    Starts(model, lit) && exists i :: Leads(other, model[|lit|..], i)
  }

  /** The literal's family begins at position i, without a slash before it. */
  ghost predicate Leads(lit: string, s: string, i: int) {
    0 <= i <= |s| && '/' !in s[..i] && Family(lit, s[i..])
  }

  lemma {:induction false} GlobLiteral(lit: string, p: string, s: string)
    requires '*' !in lit
    ensures Glob(lit + p, s) <==> Starts(s, lit) && Glob(p, s[|lit|..])
  {
    if lit == "" {
      assert lit + p == p && s[0..] == s;
    } else {
      assert (lit + p)[1..] == lit[1..] + p && (lit + p)[0] == lit[0];
      if s != "" {
        GlobLiteral(lit[1..], p, s[1..]);
        if |lit| <= |s| {
          assert s[1..][|lit[1..]|..] == s[|lit|..];
        }
        assert Starts(s, lit) <==> s[0] == lit[0] && Starts(s[1..], lit[1..]) by { StartsNext(s, lit); }
      }
    }
  }

  lemma StartsNext(s: string, lit: string)
    requires s != "" && lit != ""
    ensures Starts(s, lit) <==> s[0] == lit[0] && Starts(s[1..], lit[1..])
  {
    if Starts(s, lit) {
      assert s[..|lit|][1..] == s[1..][..|lit| - 1];
    }
    if s[0] == lit[0] && Starts(s[1..], lit[1..]) {
      assert s[..|lit|] == [s[0]] + s[1..][..|lit| - 1];
    }
  }

  ghost predicate StarEnds(p: string, s: string, i: int) {
    0 <= i <= |s| && '/' !in s[..i] && Glob(p, s[i..])
  }

  /** A star stands for any text without a slash. */
  lemma {:induction false} GlobStar(p: string, s: string)
    ensures Glob("*" + p, s) <==> exists i :: StarEnds(p, s, i)
    decreases |s|
  {
    assert ("*" + p)[1..] == p;
    assert s[0..] == s;
    if Glob(p, s) {
      assert StarEnds(p, s, 0);
    } else if s != "" {
      GlobStar(p, s[1..]);
      StarNext(p, s);
    }
  }

  lemma StarNext(p: string, s: string)
    requires s != "" && !Glob(p, s)
    ensures (exists i :: StarEnds(p, s, i)) <==> s[0] != '/' && exists i :: StarEnds(p, s[1..], i)
  {
    hide Glob;
    assert s[0..] == s;
    var rest := s[1..];
    if s[0] != '/' {
      if i :| StarEnds(p, rest, i) {
        assert s[..i + 1] == [s[0]] + rest[..i] && s[i + 1..] == rest[i..];
        assert StarEnds(p, s, i + 1);
      }
    }
    if i :| StarEnds(p, s, i) {
      assert s[0] == s[..i][0];
      assert rest[..i - 1] == s[..i][1..] && rest[i - 1..] == s[i..];
      assert StarEnds(p, rest, i - 1);
    }
  }

  lemma GlobFamily(lit: string, model: string)
    requires '*' !in lit
    ensures Glob(lit + "*", model) <==> Family(lit, model)
  {
    GlobLiteral(lit, "*", model);
    if Starts(model, lit) {
      var rest := model[|lit|..];
      GlobStar("", rest);
      assert "*" + "" == "*";
      assert rest[..|rest|] == rest && rest[|rest|..] == "";
      if '/' !in rest {
        assert StarEnds("", rest, |rest|);
      }
    }
  }

  lemma GlobLeads(other: string, rest: string)
    requires '*' !in other
    ensures Glob("*" + (other + "*"), rest) <==> exists i :: Leads(other, rest, i)
  {
    hide Family;
    GlobStar(other + "*", rest);
    if Glob("*" + (other + "*"), rest) {
      var i :| StarEnds(other + "*", rest, i);
      GlobFamily(other, rest[i..]);
      assert Leads(other, rest, i);
    }
    if i :| Leads(other, rest, i) {
      GlobFamily(other, rest[i..]);
      assert StarEnds(other + "*", rest, i);
    }
  }

  lemma GlobFamilyWith(lit: string, other: string, model: string)
    requires '*' !in lit && '*' !in other
    ensures Glob(lit + "*" + other + "*", model) <==> FamilyWith(lit, other, model)
  {
    hide Glob, Family;
    assert lit + "*" + other + "*" == lit + ("*" + (other + "*"));
    GlobLiteral(lit, "*" + (other + "*"), model);
    if Starts(model, lit) {
      GlobLeads(other, model[|lit|..]);
    }
  }

  /** The rates of the built-in table, family by family, longest pattern first. */
  ghost predicate DefaultRate(model: string, rate: Option<ModelPrice>) {
    if Family("claude-haiku-4-5", model) || Family("claude-haiku-4.5", model) then rate == Some(ModelPrice(0.00025, 0.00125))
    else if Family("claude-sonnet-5", model) then rate == Some(ModelPrice(0.003, 0.015))
    else if FamilyWith("gemini-", "-flash", model) then rate == Some(ModelPrice(0.000075, 0.0003))
    else if Family("claude-opus-5", model) then rate == Some(ModelPrice(0.015, 0.075))
    else if FamilyWith("gemini-", "-pro", model) then rate == Some(ModelPrice(0.00125, 0.005))
    else if Family("gpt-4o-mini", model) then rate == Some(ModelPrice(0.00015, 0.0006))
    else if Family("gpt-4o", model) then rate == Some(ModelPrice(0.0025, 0.01))
    else rate == None
  }

  /** The pattern of each family matches exactly its models. */
  lemma DefaultGlobs(model: string)
    ensures Glob("claude-haiku-4-5*", model) <==> Family("claude-haiku-4-5", model)
    ensures Glob("claude-haiku-4.5*", model) <==> Family("claude-haiku-4.5", model)
    ensures Glob("claude-sonnet-5*", model) <==> Family("claude-sonnet-5", model)
    ensures Glob("claude-opus-5*", model) <==> Family("claude-opus-5", model)
    ensures Glob("gemini-*-flash*", model) <==> FamilyWith("gemini-", "-flash", model)
    ensures Glob("gemini-*-pro*", model) <==> FamilyWith("gemini-", "-pro", model)
    ensures Glob("gpt-4o-mini*", model) <==> Family("gpt-4o-mini", model)
    ensures Glob("gpt-4o*", model) <==> Family("gpt-4o", model)
  {
    hide Glob, Family, FamilyWith;
    assert "claude-haiku-4-5" + "*" == "claude-haiku-4-5*" && "claude-haiku-4.5" + "*" == "claude-haiku-4.5*";
    assert "claude-sonnet-5" + "*" == "claude-sonnet-5*" && "claude-opus-5" + "*" == "claude-opus-5*";
    assert "gpt-4o-mini" + "*" == "gpt-4o-mini*" && "gpt-4o" + "*" == "gpt-4o*";
    assert "gemini-" + "*" + "-flash" + "*" == "gemini-*-flash*" && "gemini-" + "*" + "-pro" + "*" == "gemini-*-pro*";
    GlobFamily("claude-haiku-4-5", model);
    GlobFamily("claude-haiku-4.5", model);
    GlobFamily("claude-sonnet-5", model);
    GlobFamily("claude-opus-5", model);
    GlobFamilyWith("gemini-", "-flash", model);
    GlobFamilyWith("gemini-", "-pro", model);
    GlobFamily("gpt-4o-mini", model);
    GlobFamily("gpt-4o", model);
  }

  /** The entries of the table one by one, longest first. */
  lemma DefaultEntry(p: string)
    requires p in DEFAULT_PRICES
    ensures
      || (|p| == 17 && p in {HAIKU_DASH, HAIKU_DOT} && DEFAULT_PRICES[p] == ModelPrice(0.00025, 0.00125))
      || (|p| == 16 && p == "claude-sonnet-5*" && DEFAULT_PRICES[p] == ModelPrice(0.003, 0.015))
      || (|p| == 15 && p == "gemini-*-flash*" && DEFAULT_PRICES[p] == ModelPrice(0.000075, 0.0003))
      || (|p| == 14 && p == "claude-opus-5*" && DEFAULT_PRICES[p] == ModelPrice(0.015, 0.075))
      || (|p| == 13 && p == "gemini-*-pro*" && DEFAULT_PRICES[p] == ModelPrice(0.00125, 0.005))
      || (|p| == 12 && p == "gpt-4o-mini*" && DEFAULT_PRICES[p] == ModelPrice(0.00015, 0.0006))
      || (|p| == 7 && p == "gpt-4o*" && DEFAULT_PRICES[p] == ModelPrice(0.0025, 0.01))
  {
  }

  lemma DefaultPatterns()
    ensures HAIKU_DASH in DEFAULT_PRICES && HAIKU_DOT in DEFAULT_PRICES && "claude-sonnet-5*" in DEFAULT_PRICES
    ensures "gemini-*-flash*" in DEFAULT_PRICES && "claude-opus-5*" in DEFAULT_PRICES
    ensures "gemini-*-pro*" in DEFAULT_PRICES && "gpt-4o-mini*" in DEFAULT_PRICES && "gpt-4o*" in DEFAULT_PRICES
  {
  }

  lemma NotLonger(model: string, p: string, q: string)
    requires IsMostSpecific(DEFAULT_PRICES, Glob, model, p) && q in DEFAULT_PRICES
    ensures Glob(p, model) && p in DEFAULT_PRICES && (|q| > |p| ==> !Glob(q, model))
  {
    hide DEFAULT_PRICES, Glob;
  }

  /** No pattern longer than a most specific one matches. */
  lemma NoLongerMatch(model: string, p: string)
    requires IsMostSpecific(DEFAULT_PRICES, Glob, model, p)
    ensures p in DEFAULT_PRICES && Glob(p, model)
    ensures |p| < 17 ==> !Glob(HAIKU_DASH, model) && !Glob(HAIKU_DOT, model)
    ensures |p| < 16 ==> !Glob("claude-sonnet-5*", model)
    ensures |p| < 15 ==> !Glob("gemini-*-flash*", model)
    ensures |p| < 14 ==> !Glob("claude-opus-5*", model)
    ensures |p| < 13 ==> !Glob("gemini-*-pro*", model)
    ensures |p| < 12 ==> !Glob("gpt-4o-mini*", model)
  {
    hide Glob, IsMostSpecific, DEFAULT_PRICES;
    DefaultPatterns();
    NotLonger(model, p, HAIKU_DASH);
    NotLonger(model, p, HAIKU_DOT);
    NotLonger(model, p, "claude-sonnet-5*");
    NotLonger(model, p, "gemini-*-flash*");
    NotLonger(model, p, "claude-opus-5*");
    NotLonger(model, p, "gemini-*-pro*");
    NotLonger(model, p, "gpt-4o-mini*");
  }

  lemma RateOfMostSpecific(model: string, p: string)
    requires IsMostSpecific(DEFAULT_PRICES, Glob, model, p)
    ensures p in DEFAULT_PRICES && DefaultRate(model, Some(DEFAULT_PRICES[p]))
  {
    hide Glob, Family, FamilyWith, IsMostSpecific, DEFAULT_PRICES;
    NoLongerMatch(model, p);
    DefaultEntry(p);
    DefaultGlobs(model);
  }

  lemma NoDefaultMatch(model: string)
    requires forall p :: p in DEFAULT_PRICES ==> !Glob(p, model)
    ensures DefaultRate(model, None)
  {
    hide Glob, Family, FamilyWith;
    DefaultGlobs(model);
  }

  /** What the built-in table charges for every model name, in every iteration order. */
  lemma DefaultPriceOf(es: seq<PriceEntry>, model: string)
    requires Lists(es, DEFAULT_PRICES) && LongestFirst(es)
    ensures DefaultRate(model, FirstMatch(es, Glob, model))
  {
    hide Glob, DefaultRate, Lists, LongestFirst, FirstMatch, DEFAULT_PRICES;
    MostSpecificWins(es, DEFAULT_PRICES, Glob, model);
    var rate := FirstMatch(es, Glob, model);
    if rate.Some? {
      var p :| IsMostSpecific(DEFAULT_PRICES, Glob, model, p) && rate == Some(DEFAULT_PRICES[p]);
      RateOfMostSpecific(model, p);
    } else {
      NoDefaultMatch(model);
    }
  }

  // ---------------------------------------------------------------- rate bounds

  const CHEAPEST: real := 0.000075
  const DEAREST: real := 0.075

  predicate RatesWithin(p: ModelPrice, lo: real, hi: real) {
    lo <= p.inputPer1K <= hi && lo <= p.outputPer1K <= hi
  }

  lemma DefaultRates(p: string)
    requires p in DEFAULT_PRICES
    ensures RatesWithin(DEFAULT_PRICES[p], CHEAPEST, DEAREST)
  {
  }

  lemma CostWithin(p: ModelPrice, lo: real, hi: real, input: nat, output: nat)
    requires RatesWithin(p, lo, hi)
    ensures lo * (input + output) as real / 1000.0 <= p.Cost(input, output) <= hi * (input + output) as real / 1000.0
  {
    var a, b := input as real / 1000.0, output as real / 1000.0;
    assert (input + output) as real / 1000.0 == a + b;
    assert (p.inputPer1K - lo) * a >= 0.0 && (p.outputPer1K - lo) * b >= 0.0;
    assert (hi - p.inputPer1K) * a >= 0.0 && (hi - p.outputPer1K) * b >= 0.0;
  }

  /** A charge between the cheapest and the dearest default rate for its tokens. */
  predicate WithinRates(c: Charge) {
    && c.tokens >= 0
    && CHEAPEST * c.tokens as real / 1000.0 <= c.usd <= DEAREST * c.tokens as real / 1000.0
  }

  /** With the default table every model, known or not, costs within the table's extreme
      rates, whatever path.Match answers. */
  lemma DefaultEstimateWithinRates(es: seq<PriceEntry>, matches: Matcher, model: string, input: nat, output: nat,
                                   namespace: string, account: string)
    requires Lists(es, DEFAULT_PRICES)
    ensures WithinRates(Charge(namespace, account, Rates(es, FALLBACK, matches).Usd(model, input, output), input + output))
  {
    var i := FirstMatchAt(es, matches, model);
    var price := if i < |es| then es[i].price else FALLBACK;
    if i < |es| {
      DefaultRates(es[i].pattern);
    }
    CostWithin(price, CHEAPEST, DEAREST, input, output);
  }

  predicate Sandwiched(a: Account) {
    && a.spentTokens >= 0
    && CHEAPEST * a.spentTokens as real / 1000.0 <= a.spentUSD <= DEAREST * a.spentTokens as real / 1000.0
  }

  /** From a fresh account, until the next Sync of its key, dollars and tokens stay tied to
      each other by the two extreme rates. */
  lemma {:induction false} TokenUsdSandwich(l: Ledger, h: seq<Event>, k: string)
    requires k in l && Sandwiched(l[k])
    requires forall i :: 0 <= i < |h| ==> h[i].LedgerKey() == k ==>
      h[i].Zeroed? || (h[i].Spent? && WithinRates(h[i].charge))
    ensures k in Run(l, h) && Sandwiched(Run(l, h)[k])
  {
    if h != [] {
      var init, e := h[..|h| - 1], h[|h| - 1];
      TokenUsdSandwich(l, init, k);
      if e.LedgerKey() != k {
        ApplyFrame(Run(l, init), e, k);
      }
    }
  }

  /** Tokens alone force denial: an account with a positive budget that is not Exceeded has
      consumed fewer tokens than the budget buys at the cheapest rate. */
  lemma UnexceededBoundsTokens(a: Account)
    requires Sandwiched(a) && Coherent(a) && a.maxUSD > 0.0 && a.state != Exceeded
    ensures a.spentTokens as real < a.maxUSD * 1000.0 / CHEAPEST
  {
    StateThresholds(a.maxUSD, a.softLimitPct, a.spentUSD);
    assert CHEAPEST * a.spentTokens as real / 1000.0 < a.maxUSD;
  }

  /** The two together, for a whole run from a fresh account. */
  lemma ForcedDenial(l: Ledger, h: seq<Event>, k: string)
    requires k in l && l[k].spentUSD == 0.0 && l[k].spentTokens == 0 && Coherent(l[k]) && l[k].maxUSD > 0.0
    requires forall i :: 0 <= i < |h| ==> h[i].LedgerKey() == k ==>
      h[i].Zeroed? || (h[i].Spent? && WithinRates(h[i].charge))
    requires k in Run(l, h) && Run(l, h)[k].spentTokens as real >= l[k].maxUSD * 1000.0 / CHEAPEST
    ensures Run(l, h)[k].state == Exceeded
  {
    TokenUsdSandwich(l, h, k);
    CoherenceRestored(l, h, k);
    StaysPresent(l, h, k);
    if Run(l, h)[k].state != Exceeded {
      UnexceededBoundsTokens(Run(l, h)[k]);
    }
  }
}
