/** The OTLP receiver: a decoded request is a tree of resources, scopes and spans; each
    span may yield a tool call for the store and a spend for the ledger. */
module Receiver {
  import opened Common
  import opened QuotaApi
  import opened LedgerSpec
  import opened LedgerCache
  import opened SpendRuns
  import opened SpanLog
  import opened SpanStorage
  import opened Pricing
  import opened DefaultPrices
  import SpendFormat

  datatype AnyValue = AnyValue(stringValue: Option<string>, intValue: Option<string>, doubleValue: Option<real>)
  datatype KeyValue = KeyValue(key: string, value: AnyValue)
  datatype Span = Span(name: string, startTimeUnixNano: string, attributes: seq<KeyValue>)
  datatype ResourceSpans = ResourceSpans(attributes: seq<KeyValue>, scopes: seq<seq<Span>>)

  /** body is None when the request does not decode. */
  datatype Request = Request(post: bool, body: Option<seq<ResourceSpans>>)

  // ---------------------------------------------------------------- attributes

  predicate HasString(a: KeyValue, key: string) {
    a.key == key && a.value.stringValue.Some?
  }

  /** The first string value under the key, "" if there is none. */
  function AttrStr(attrs: seq<KeyValue>, key: string): string {
    if attrs == [] then ""
    else if HasString(attrs[0], key) then attrs[0].value.stringValue.value
    else AttrStr(attrs[1..], key)
  }

  lemma {:induction false} AttrStrAt(attrs: seq<KeyValue>, key: string, i: nat)
    requires i <= |attrs| && forall j :: 0 <= j < i ==> !HasString(attrs[j], key)
    requires i < |attrs| ==> HasString(attrs[i], key)
    ensures AttrStr(attrs, key) == if i < |attrs| then attrs[i].value.stringValue.value else ""
  {
    if i > 0 {
      AttrStrAt(attrs[1..], key, i - 1);
    }
  }

  const MAX_INT64: int := 0x7fff_ffff_ffff_ffff
  const MIN_INT64: int := -0x8000_0000_0000_0000

  /** strconv.ParseInt(s, 10, 64). */
  function ParseInt(s: string): (r: Option<int>)
    ensures r.Some? ==> MIN_INT64 <= r.value <= MAX_INT64
  {
    var negative := s != "" && s[0] == '-';
    var digits := if s != "" && (s[0] == '-' || s[0] == '+') then s[1..] else s;
    if digits == "" then None
    else
      match SpendFormat.ParseDigits(digits)
      case None => None
      case Some(n) =>
        var m: int := n;
        var v := if negative then -m else m;
        if MIN_INT64 <= v <= MAX_INT64 then Some(v) else None
  }

  /** Decimal text is read back exactly within the 64-bit range, and not at all outside it. */
  lemma ParseIntOfDigits(n: nat)
    ensures ParseInt(SpendFormat.Digits(n)) == if n <= 9_223_372_036_854_775_807 then Some(n) else None
    ensures ParseInt("-" + SpendFormat.Digits(n)) == if n <= 9_223_372_036_854_775_808 then Some(0 - n) else None
    ensures ParseInt("+" + SpendFormat.Digits(n)) == if n <= 9_223_372_036_854_775_807 then Some(n) else None
  {
    hide SpendFormat.Digits, SpendFormat.ParseDigits;
    var s := SpendFormat.Digits(n);
    SpendFormat.DigitsRoundTrip(n);
    assert SpendFormat.IsDigit(s[0]);
    assert ("-" + s)[1..] == s && ("+" + s)[1..] == s;
  }

  /** Nothing else is an integer: a text without digits, or with anything but digits behind at most
      one sign, reads as none; and none reads outside the 64-bit range. */
  lemma ParseIntRejects(s: string)
    ensures s in {"", "+", "-"} ==> ParseInt(s) == None
    ensures (exists i :: 0 <= i < |s| && !('0' <= s[i] <= '9') && (i > 0 || (s[0] != '-' && s[0] != '+'))) ==> ParseInt(s) == None
    ensures ParseInt(s).Some? ==> -9_223_372_036_854_775_808 <= ParseInt(s).value <= 9_223_372_036_854_775_807
  {
    var digits := if s != "" && (s[0] == '-' || s[0] == '+') then s[1..] else s;
    if i :| 0 <= i < |s| && !('0' <= s[i] <= '9') && (i > 0 || (s[0] != '-' && s[0] != '+')) {
      if digits != s {
        assert s[i] == digits[i - 1];
      }
      assert !SpendFormat.AllDigits(digits);
    }
  }

  /** Conversion of a float to an integer drops the fraction. */
  function Truncate(x: real): (n: int)
    ensures x >= 0.0 ==> 0.0 <= n as real <= x < n as real + 1.0
    ensures x < 0.0 ==> n as real - 1.0 < x <= n as real <= 0.0
  {
    if x >= 0.0 then x.Floor else -((-x).Floor)
  }

  /** One value read as a number: the integer text if it parses, else the double, else the string. */
  function ReadInt(v: AnyValue): Option<int> {
    if v.intValue.Some? && ParseInt(v.intValue.value).Some? then ParseInt(v.intValue.value)
    else if v.doubleValue.Some? then Some(Truncate(v.doubleValue.value))
    else if v.stringValue.Some? then ParseInt(v.stringValue.value)
    else None
  }

  predicate HasNumber(a: KeyValue, key: string) {
    a.key == key && ReadInt(a.value).Some?
  }

  /** The first readable number under the key; unreadable ones are passed over. */
  function AttrInt64(attrs: seq<KeyValue>, key: string): Option<int> {
    if attrs == [] then None
    else if HasNumber(attrs[0], key) then ReadInt(attrs[0].value)
    else AttrInt64(attrs[1..], key)
  }

  lemma {:induction false} AttrInt64At(attrs: seq<KeyValue>, key: string, i: nat)
    requires i <= |attrs| && forall j :: 0 <= j < i ==> !HasNumber(attrs[j], key)
    requires i < |attrs| ==> HasNumber(attrs[i], key)
    ensures AttrInt64(attrs, key) == if i < |attrs| then ReadInt(attrs[i].value) else None
  {
    hide ReadInt;
    if i > 0 {
      AttrInt64At(attrs[1..], key, i - 1);
    }
  }

  function ExtractToolName(span: Span): string {
    var preferred := AttrStr(span.attributes, "gen_ai.tool.name");
    var common := AttrStr(span.attributes, "tool.name");
    if preferred != "" then preferred else if common != "" then common else span.name
  }

  function ParseNano(s: string, now: Time): Time {
    match ParseInt(s)
    case Some(ns) => ns
    case None => now
  }

  // ---------------------------------------------------------------- what one span yields

  /** A span with what it inherits from its resource. */
  datatype Item = Item(namespace: string, pod: string, account: string, span: Span)

  function ToolCalls(it: Item, now: Time): seq<StoreEvent> {
    var tool := ExtractToolName(it.span);
    if tool == "" then []
    else [Recorded(Key(it.namespace, it.pod), ToolCall(tool, ParseNano(it.span.startTimeUnixNano, now)), now)]
  }

  function OrZero(n: Option<int>): int {
    if n.Some? then n.value else 0
  }

  function InputTokens(span: Span): Option<int> { AttrInt64(span.attributes, "gen_ai.usage.input_tokens") }

  function OutputTokens(span: Span): Option<int> { AttrInt64(span.attributes, "gen_ai.usage.output_tokens") }

  function ModelOf(span: Span): string {
    var model := AttrStr(span.attributes, "gen_ai.request.model");
    if model == "" then "unknown" else model
  }

  /** A span that reports a ServiceAccount and some token usage. */
  predicate Billable(it: Item) {
    it.account != "" && (InputTokens(it.span).Some? || OutputTokens(it.span).Some?)
  }

  function TokensIn(it: Item): int { OrZero(InputTokens(it.span)) + OrZero(OutputTokens(it.span)) }

  function CostOf(it: Item, t: Tariff): real {
    t.Usd(ModelOf(it.span), OrZero(InputTokens(it.span)), OrZero(OutputTokens(it.span)))
  }

  /** The charges a span yields: none without a tariff or when it is not billable. */
  function Bill(it: Item, t: Option<Tariff>): seq<Charge> {
    if t.None? || !Billable(it) then []
    else [Charge(it.namespace, it.account, CostOf(it, t.value), TokensIn(it))]
  }

  // ---------------------------------------------------------------- flattening a request

  function ItemOf(r: ResourceSpans, span: Span): Item {
    Item(AttrStr(r.attributes, "k8s.namespace.name"), AttrStr(r.attributes, "k8s.pod.name"),
         AttrStr(r.attributes, "k8s.serviceaccount.name"), span)
  }

  function SpanItems(r: ResourceSpans, spans: seq<Span>): seq<Item> {
    if spans == [] then []
    else SpanItems(r, spans[..|spans| - 1]) + [ItemOf(r, spans[|spans| - 1])]
  }

  function ScopeItems(r: ResourceSpans, scopes: seq<seq<Span>>): seq<Item> {
    if scopes == [] then []
    else ScopeItems(r, scopes[..|scopes| - 1]) + SpanItems(r, scopes[|scopes| - 1])
  }

  predicate Identified(r: ResourceSpans) {
    AttrStr(r.attributes, "k8s.namespace.name") != "" && AttrStr(r.attributes, "k8s.pod.name") != ""
  }

  /** The spans of a batch in order, without the resources that name no namespace or pod. */
  function Items(batch: seq<ResourceSpans>): seq<Item> {
    if batch == [] then []
    else
      var r := batch[|batch| - 1];
      Items(batch[..|batch| - 1]) + if Identified(r) then ScopeItems(r, r.scopes) else []
  }

  /** clock(i) is the reading taken while the i-th span is handled. */
  type Clock = nat -> Time

  function Recordings(items: seq<Item>, clock: Clock): seq<StoreEvent> {
    if items == [] then []
    else Recordings(items[..|items| - 1], clock) + ToolCalls(items[|items| - 1], clock(|items| - 1))
  }

  function Bills(items: seq<Item>, t: Option<Tariff>): seq<Charge> {
    if items == [] then []
    else Bills(items[..|items| - 1], t) + Bill(items[|items| - 1], t)
  }

  function Spends(items: seq<Item>, t: Option<Tariff>, clock: Clock): (h: seq<Event>)
    ensures forall i :: 0 <= i < |h| ==> h[i].Spent?
  {
    if items == [] then []
    else Spends(items[..|items| - 1], t, clock) + Timed(Bill(items[|items| - 1], t), clock(|items| - 1))
  }

  function Timed(cs: seq<Charge>, at: Time): (h: seq<Event>)
    ensures forall i :: 0 <= i < |h| ==> h[i].Spent?
  {
    if cs == [] then [] else [Spent(cs[0], at)] + Timed(cs[1..], at)
  }

  lemma RunTimed(l: Ledger, c: Charge, at: Time)
    ensures Run(l, Timed([c], at)) == ChargeStep(l, c.LedgerKey(), c.usd, c.tokens, at)
    ensures Run(l, Timed([], at)) == l
  {
    assert Timed([c], at) == [Spent(c, at)];
    assert [Spent(c, at)][..0] == [];
  }

  // ---------------------------------------------------------------- the handler

  class Handler {
    const store: SpanStore
    const cache: Cache?
    const estimator: Estimator?

    constructor (store: SpanStore, cache: Cache?, estimator: Estimator?)
      ensures this.store == store && this.cache == cache && this.estimator == estimator
    {
      this.store, this.cache, this.estimator := store, cache, estimator;
    }

    /** Costs are tracked when both the ledger and the prices are wired. */
    ghost function Wired(): Option<Tariff>
      reads this, if estimator == null then {} else {estimator}
    {
      if cache == null || estimator == null then None else Some(estimator.Tariff())
    }

    ghost predicate Valid()
      reads this, store, store.buffers.Values, if cache == null then {} else {cache}
    {
      store.Valid() && (cache != null ==> cache.Valid())
    }

    ghost function Accounts(): Ledger
      reads this, if cache == null then {} else {cache}, if cache == null then {} else cache.entries.Values
    {
      if cache == null then map[] else cache.View()
    }

    method RecordSpend(it: Item, now: Time)
      requires Valid()
      modifies if cache == null then {} else cache.entries.Values
      ensures Valid() && (cache != null ==> cache.entries == old(cache.entries))
      ensures Accounts() == Run(old(Accounts()), Timed(Bill(it, Wired()), now))
    {
      hide AttrStr, AttrInt64, ChargeStep, Run, Timed, Tariff.Usd, FirstMatch, ChargedAt;
      ghost var bill := Bill(it, Wired());
      RunTimed(Accounts(), Charge("", "", 0.0, 0), now);
      if cache == null || estimator == null || it.account == "" {
        return;
      }
      var input := AttrInt64(it.span.attributes, "gen_ai.usage.input_tokens");
      var output := AttrInt64(it.span.attributes, "gen_ai.usage.output_tokens");
      if input.None? && output.None? {
        return;
      }
      var model := AttrStr(it.span.attributes, "gen_ai.request.model");
      if model == "" {
        model := "unknown";
      }
      var usd, _ := estimator.Estimate(model, OrZero(input), OrZero(output));
      assert bill == [Charge(it.namespace, it.account, usd, OrZero(input) + OrZero(output))];
      RunTimed(Accounts(), bill[0], now);
      var _ := cache.RecordSpend(it.namespace, it.account, usd, OrZero(input) + OrZero(output), now);
    }

    method RecordToolCall(it: Item, now: Time)
      requires Valid()
      modifies store, store.buffers.Values
      ensures Valid() && fresh(store.buffers.Values - old(store.buffers.Values))
      ensures store.calls == StoreRun(old(store.calls), ToolCalls(it, now))
    {
      hide ExtractToolName, ParseNano, RecordStep, ToolCalls, StoreRun;
      var tool := ExtractToolName(it.span);
      RecordedOnce(store.calls, it, now);
      if tool != "" {
        store.Record(it.namespace, it.pod, tool, ParseNano(it.span.startTimeUnixNano, now));
      }
    }

    /** One span: its tool call goes to the store, its cost to the ledger. */
    method HandleSpan(it: Item, now: Time)
      requires Valid()
      modifies store, store.buffers.Values, if cache == null then {} else cache.entries.Values
      ensures Valid() && fresh(store.buffers.Values - old(store.buffers.Values))
      ensures cache != null ==> cache.entries == old(cache.entries)
      ensures store.calls == StoreRun(old(store.calls), ToolCalls(it, now))
      ensures Accounts() == Run(old(Accounts()), Timed(Bill(it, Wired()), now))
    {
      hide ToolCalls, StoreRun, Bill, Timed, Run;
      RecordToolCall(it, now);
      RecordSpend(it, now);
    }

    /** The store and the ledger are where handling done, span by span, has brought them. */
    ghost predicate Progress(done: seq<Item>, t: Option<Tariff>, clock: Clock, m: Calls, l: Ledger)
      reads this, store, store.buffers.Values, if cache == null then {} else {cache},
            if cache == null then {} else cache.entries.Values, if estimator == null then {} else {estimator}
    {
      && Valid() && Wired() == t
      && store.calls == StoreRun(m, Recordings(done, clock))
      && Accounts() == Run(l, Spends(done, t, clock))
    }

    lemma ProgressStarts(clock: Clock)
      requires Valid()
      ensures Progress([], Wired(), clock, store.calls, Accounts())
    {
    }

    lemma ProgressEnds(done: seq<Item>, t: Option<Tariff>, clock: Clock, m: Calls, l: Ledger)
      requires Progress(done, t, clock, m, l)
      ensures Valid() && store.calls == StoreRun(m, Recordings(done, clock))
      ensures Accounts() == Run(l, Spends(done, t, clock))
    {
    }

    method HandleNext(it: Item, n: nat, clock: Clock, ghost done: seq<Item>, ghost t: Option<Tariff>,
                      ghost m: Calls, ghost l: Ledger)
      requires n == |done| && Progress(done, t, clock, m, l)
      modifies store, store.buffers.Values, if cache == null then {} else cache.entries.Values
      ensures Progress(done + [it], t, clock, m, l)
      ensures fresh(store.buffers.Values - old(store.buffers.Values))
      ensures cache != null ==> cache.entries == old(cache.entries)
    {
      hide ToolCalls, Bill, Timed, Run, StoreRun, Valid;
      HandleSpan(it, clock(n));
      assert (done + [it])[..n] == done;
      StoreRunConcat(m, Recordings(done, clock), ToolCalls(it, clock(n)));
      RunConcat(l, Spends(done, t, clock), Timed(Bill(it, t), clock(n)));
    }

    /** Resource by resource, scope by scope, span by span; resources that name no namespace
        or pod are skipped. */
    method ServeHTTP(req: Request, clock: Clock) returns (status: int)
      requires Valid()
      modifies store, store.buffers.Values, if cache == null then {} else cache.entries.Values
      ensures Valid() && fresh(store.buffers.Values - old(store.buffers.Values))
      ensures cache != null ==> cache.entries == old(cache.entries)
      ensures status == if !req.post then 405 else if req.body.None? then 400 else 200
      ensures var items := if status == 200 then Items(req.body.value) else [];
        && store.calls == StoreRun(old(store.calls), Recordings(items, clock))
        && Accounts() == Run(old(Accounts()), Spends(items, old(Wired()), clock))
    {
      hide StoreRun, Run, Valid, AttrStr, Progress, Wired, Accounts, Identified, ItemOf, Recordings, Spends;
      NothingHandled(store.calls, Accounts(), Wired(), clock);
      ProgressStarts(clock);
      if !req.post {
        return 405;
      }
      if req.body.None? {
        return 400;
      }
      var batch := req.body.value;
      ghost var t, m, l := Wired(), store.calls, Accounts();
      ghost var done: seq<Item> := [];
      var n := 0;
      for i := 0 to |batch|
        invariant done == Items(batch[..i]) && n == |done| && Progress(done, t, clock, m, l)
        invariant fresh(store.buffers.Values - old(store.buffers.Values))
        invariant cache != null ==> cache.entries == old(cache.entries)
      {
        var r := batch[i];
        assert batch[..i + 1][..i] == batch[..i];
        if !Identified(r) {
          continue;
        }
        for j := 0 to |r.scopes|
          invariant done == Items(batch[..i]) + ScopeItems(r, r.scopes[..j])
          invariant n == |done| && Progress(done, t, clock, m, l)
          invariant fresh(store.buffers.Values - old(store.buffers.Values))
          invariant cache != null ==> cache.entries == old(cache.entries)
        {
          var spans := r.scopes[j];
          assert r.scopes[..j + 1][..j] == r.scopes[..j];
          for p := 0 to |spans|
            invariant done == Items(batch[..i]) + ScopeItems(r, r.scopes[..j]) + SpanItems(r, spans[..p])
            invariant n == |done| && Progress(done, t, clock, m, l)
            invariant fresh(store.buffers.Values - old(store.buffers.Values))
            invariant cache != null ==> cache.entries == old(cache.entries)
          {
            assert spans[..p + 1][..p] == spans[..p];
            HandleNext(ItemOf(r, spans[p]), n, clock, done, t, m, l);
            done, n := done + [ItemOf(r, spans[p])], n + 1;
          }
          assert spans[..|spans|] == spans;
        }
        assert r.scopes[..|r.scopes|] == r.scopes;
      }
      assert batch[..|batch|] == batch;
      ProgressEnds(done, t, clock, m, l);
      return 200;
    }
  }

  lemma NothingHandled(m: Calls, l: Ledger, t: Option<Tariff>, clock: Clock)
    ensures StoreRun(m, Recordings([], clock)) == m && Run(l, Spends([], t, clock)) == l
  {
  }

  lemma RecordedOnce(m: Calls, it: Item, now: Time)
    ensures StoreRun(m, ToolCalls(it, now)) ==
      var tool := ExtractToolName(it.span);
      if tool == "" then m
      else RecordStep(m, Key(it.namespace, it.pod), ToolCall(tool, ParseNano(it.span.startTimeUnixNano, now)))
  {
    hide ExtractToolName, ParseNano, RecordStep;
    if ToolCalls(it, now) != [] {
      assert ToolCalls(it, now)[..0] == [];
    }
  }
}
