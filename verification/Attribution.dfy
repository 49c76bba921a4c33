/** Which span a request handles, and under whose names: every tool call goes to the pod and every
    charge to the ServiceAccount that the span's resource names. */
module Attribution {
  import opened Common
  import opened QuotaApi
  import opened LedgerSpec
  import opened SpendRuns
  import opened SpanLog
  import opened Pricing
  import opened Receiver
  import ExportRuns

  // ---------------------------------------------------------------- what attributes say

  /** v is the first string value under the key, "" without one. */
  ghost predicate Text(attrs: seq<KeyValue>, key: string, v: string) {
    || (exists i :: 0 <= i < |attrs| && attrs[i].key == key && attrs[i].value.stringValue == Some(v)
                    && forall j :: 0 <= j < i ==> !(attrs[j].key == key && attrs[j].value.stringValue.Some?))
    || (v == "" && forall j :: 0 <= j < |attrs| ==> !(attrs[j].key == key && attrs[j].value.stringValue.Some?))
  }

  lemma {:induction false} TextIs(attrs: seq<KeyValue>, key: string, v: string)
    ensures Text(attrs, key, v) <==> v == AttrStr(attrs, key)
  {
    if attrs != [] && !HasString(attrs[0], key) {
      TextIs(attrs[1..], key, v);
      TextOfRest(attrs, key, v);
    }
  }

  lemma TextOfRest(attrs: seq<KeyValue>, key: string, v: string)
    requires attrs != [] && !(attrs[0].key == key && attrs[0].value.stringValue.Some?)
    ensures Text(attrs, key, v) <==> Text(attrs[1..], key, v)
  {
  }

  /** n is x without its fraction. */
  ghost predicate WithoutFraction(x: real, n: int) {
    if x >= 0.0 then n as real <= x < n as real + 1.0 else n as real - 1.0 < x <= n as real
  }

  /** How a value reads as a number: its integer text if that is a 64-bit integer, else its double
      without the fraction, else its string if that is a 64-bit integer. */
  ghost predicate ReadsAs(v: AnyValue, o: Option<int>) {
    if v.intValue.Some? && ParseInt(v.intValue.value).Some? then o == ParseInt(v.intValue.value)
    else if v.doubleValue.Some? then o.Some? && WithoutFraction(v.doubleValue.value, o.value)
    else o == if v.stringValue.Some? then ParseInt(v.stringValue.value) else None
  }

  lemma ReadsAsIs(v: AnyValue, o: Option<int>)
    ensures ReadsAs(v, o) <==> o == ReadInt(v)
  {
    hide ParseInt;
    if v.doubleValue.Some? && o.Some? {
      var n := Truncate(v.doubleValue.value);
      assert WithoutFraction(v.doubleValue.value, o.value) ==> o.value == n;
    }
  }

  /** o is the first value under the key that reads as a number, None without one. */
  ghost predicate Number(attrs: seq<KeyValue>, key: string, o: Option<int>) {
    || (o.Some? && exists i :: 0 <= i < |attrs| && attrs[i].key == key && ReadsAs(attrs[i].value, o)
                    && forall j :: 0 <= j < i ==> attrs[j].key == key ==> ReadsAs(attrs[j].value, None))
    || (o.None? && forall j :: 0 <= j < |attrs| ==> attrs[j].key == key ==> ReadsAs(attrs[j].value, None))
  }

  lemma {:induction false} NumberIs(attrs: seq<KeyValue>, key: string, o: Option<int>)
    ensures Number(attrs, key, o) <==> o == AttrInt64(attrs, key)
  {
    hide ReadsAs, ReadInt;
    if attrs != [] {
      ReadsAsIs(attrs[0].value, o);
      ReadsAsIs(attrs[0].value, None);
      if !HasNumber(attrs[0], key) {
        NumberIs(attrs[1..], key, o);
        NumberOfRest(attrs, key, o);
      }
    }
  }

  lemma NumberOfRest(attrs: seq<KeyValue>, key: string, o: Option<int>)
    requires attrs != [] && (attrs[0].key == key ==> ReadInt(attrs[0].value).None?)
    ensures Number(attrs, key, o) <==> Number(attrs[1..], key, o)
  {
    hide ReadsAs, ReadInt;
    ReadsAsIs(attrs[0].value, o);
    ReadsAsIs(attrs[0].value, None);
  }

  /** The tool a span names: under its preferred key, else the common one, else its own name. */
  ghost predicate ToolName(span: Span, tool: string) {
    exists preferred, common ::
      && Text(span.attributes, "gen_ai.tool.name", preferred) && Text(span.attributes, "tool.name", common)
      && tool == if preferred != "" then preferred else if common != "" then common else span.name
  }

  // ---------------------------------------------------------------- which spans are handled

  /** The span-th span of the scope-th scope of the resource-th resource. */
  datatype Place = Place(resource: nat, scope: nat, span: nat)

  predicate Within(batch: seq<ResourceSpans>, pl: Place) {
    && pl.resource < |batch| && pl.scope < |batch[pl.resource].scopes|
    && pl.span < |batch[pl.resource].scopes[pl.scope]|
  }

  function Attributes(batch: seq<ResourceSpans>, pl: Place): seq<KeyValue>
    requires Within(batch, pl)
  {
    batch[pl.resource].attributes
  }

  function SpanAt(batch: seq<ResourceSpans>, pl: Place): Span
    requires Within(batch, pl)
  {
    batch[pl.resource].scopes[pl.scope][pl.span]
  }

  /** The resource names a namespace and a pod. */
  ghost predicate NamesPod(attrs: seq<KeyValue>) {
    exists ns, pod :: Text(attrs, "k8s.namespace.name", ns) && Text(attrs, "k8s.pod.name", pod) && ns != "" && pod != ""
  }

  lemma NamesPodIs(r: ResourceSpans)
    ensures NamesPod(r.attributes) <==> Identified(r)
  {
    hide Text, AttrStr;
    var attrs := r.attributes;
    TextIs(attrs, "k8s.namespace.name", AttrStr(attrs, "k8s.namespace.name"));
    TextIs(attrs, "k8s.pod.name", AttrStr(attrs, "k8s.pod.name"));
    if NamesPod(attrs) {
      var ns, pod :| Text(attrs, "k8s.namespace.name", ns) && Text(attrs, "k8s.pod.name", pod) && ns != "" && pod != "";
      TextIs(attrs, "k8s.namespace.name", ns);
      TextIs(attrs, "k8s.pod.name", pod);
    }
  }

  ghost predicate Handled(batch: seq<ResourceSpans>, pl: Place) {
    Within(batch, pl) && NamesPod(Attributes(batch, pl))
  }

  /** Earlier in the request. */
  predicate Precedes(a: Place, b: Place) {
    a.resource < b.resource
    || (a.resource == b.resource && (a.scope < b.scope || (a.scope == b.scope && a.span < b.span)))
  }

  /** The handled places, each once, in the order of the request. */
  ghost predicate Lists(batch: seq<ResourceSpans>, places: seq<Place>) {
    && (forall pl :: pl in places <==> Handled(batch, pl))
    && Ascending(places)
  }

  ghost predicate Ascending(places: seq<Place>) {
    forall i, j :: 0 <= i < j < |places| ==> Precedes(places[i], places[j])
  }

  lemma AscendingConcat(a: seq<Place>, b: seq<Place>)
    requires Ascending(a) && Ascending(b) && forall x, y :: x in a && y in b ==> Precedes(x, y)
    ensures Ascending(a + b)
  {
    forall i, j | 0 <= i < j < |a + b| ensures Precedes((a + b)[i], (a + b)[j]) {
      assert i < |a| ==> (a + b)[i] in a;
      assert j >= |a| ==> (a + b)[j] in b;
    }
  }

  function SpanPlaces(i: nat, j: nat, n: nat): (places: seq<Place>)
    ensures |places| == n && forall p :: 0 <= p < n ==> places[p] == Place(i, j, p)
  {
    seq(n, p requires 0 <= p < n => Place(i, j, p))
  }

  function ScopePlaces(i: nat, scopes: seq<seq<Span>>): seq<Place> {
    if scopes == [] then []
    else ScopePlaces(i, scopes[..|scopes| - 1]) + SpanPlaces(i, |scopes| - 1, |scopes[|scopes| - 1]|)
  }

  function Places(batch: seq<ResourceSpans>): seq<Place> {
    if batch == [] then []
    else
      var i := |batch| - 1;
      Places(batch[..i]) + if Identified(batch[i]) then ScopePlaces(i, batch[i].scopes) else []
  }

  lemma {:induction false} ScopePlacesExactly(i: nat, scopes: seq<seq<Span>>)
    ensures forall pl :: pl in ScopePlaces(i, scopes) <==>
      pl.resource == i && pl.scope < |scopes| && pl.span < |scopes[pl.scope]|
    ensures Ascending(ScopePlaces(i, scopes))
  {
    if scopes != [] {
      var init, last := scopes[..|scopes| - 1], SpanPlaces(i, |scopes| - 1, |scopes[|scopes| - 1]|);
      ScopePlacesExactly(i, init);
      forall pl ensures pl in ScopePlaces(i, scopes) <==>
          pl.resource == i && pl.scope < |scopes| && pl.span < |scopes[pl.scope]| {
        assert pl in ScopePlaces(i, scopes) <==> pl in ScopePlaces(i, init) || pl in last;
        if pl.resource == i && pl.scope == |scopes| - 1 && pl.span < |scopes[pl.scope]| {
          assert pl == last[pl.span];
        }
      }
      AscendingConcat(ScopePlaces(i, init), last);
    }
  }

  lemma {:induction false} PlacesExactly(batch: seq<ResourceSpans>)
    ensures Lists(batch, Places(batch))
  {
    if batch != [] {
      hide Identified, NamesPod, ScopePlaces, Ascending;
      var i := |batch| - 1;
      var init, r := batch[..i], batch[i];
      PlacesExactly(init);
      NamesPodIs(r);
      ScopePlacesExactly(i, r.scopes);
      forall pl ensures pl in Places(batch) <==> Handled(batch, pl) {
        assert pl in Places(batch) <==> pl in Places(init) || (Identified(r) && pl in ScopePlaces(i, r.scopes));
      }
      if Identified(r) {
        AscendingConcat(Places(init), ScopePlaces(i, r.scopes));
      }
    }
  }

  // ---------------------------------------------------------------- what a span leaves

  /** The store events of a span handled at a time: its call, if it names a tool, under the
      namespace and pod of its resource, at the start time it reports if that is a 64-bit integer
      and now otherwise. */
  ghost predicate YieldsCall(attrs: seq<KeyValue>, span: Span, now: Time, es: seq<StoreEvent>) {
    exists ns, pod, tool ::
      && Text(attrs, "k8s.namespace.name", ns) && Text(attrs, "k8s.pod.name", pod) && ToolName(span, tool)
      && es == if tool == "" then [] else
           [Recorded(ns + "/" + pod, ToolCall(tool, match ParseInt(span.startTimeUnixNano) case Some(t) => t case None => now), now)]
  }

  /** The charges of a span: one, to the namespace and ServiceAccount of its resource, if that names
      a ServiceAccount and the span reports usage; its tokens are input and output together, its
      cost that of the model named at the rate the tariff charges. */
  ghost predicate YieldsCharge(attrs: seq<KeyValue>, span: Span, t: Option<Tariff>, cs: seq<Charge>) {
    exists ns, sa, model, input, output ::
      && Text(attrs, "k8s.namespace.name", ns) && Text(attrs, "k8s.serviceaccount.name", sa)
      && Text(span.attributes, "gen_ai.request.model", model)
      && Number(span.attributes, "gen_ai.usage.input_tokens", input)
      && Number(span.attributes, "gen_ai.usage.output_tokens", output)
      && if t.None? || sa == "" || (input.None? && output.None?) then cs == []
         else |cs| == 1 && cs[0].namespace == ns && cs[0].account == sa
              && Costs(t.value, if model == "" then "unknown" else model,
                       if input.Some? then input.value else 0, if output.Some? then output.value else 0, cs[0])
  }

  ghost predicate Costs(t: Tariff, model: string, input: int, output: int, c: Charge) {
    && c.tokens == input + output
    && exists price :: ChargedAt(t, model, price)
         && 1000.0 * c.usd == input as real * price.inputPer1K + output as real * price.outputPer1K
  }

  lemma CallOfItem(r: ResourceSpans, span: Span, now: Time)
    ensures YieldsCall(r.attributes, span, now, ToolCalls(ItemOf(r, span), now))
  {
    hide Text, AttrStr, ParseInt;
    var ns, pod := AttrStr(r.attributes, "k8s.namespace.name"), AttrStr(r.attributes, "k8s.pod.name");
    var preferred, common := AttrStr(span.attributes, "gen_ai.tool.name"), AttrStr(span.attributes, "tool.name");
    TextIs(r.attributes, "k8s.namespace.name", ns);
    TextIs(r.attributes, "k8s.pod.name", pod);
    TextIs(span.attributes, "gen_ai.tool.name", preferred);
    TextIs(span.attributes, "tool.name", common);
    assert ToolName(span, ExtractToolName(span));
  }

  lemma UsdCosts(t: Tariff, ns: string, sa: string, model: string, input: int, output: int)
    ensures Costs(t, model, input, output, Charge(ns, sa, t.Usd(model, input, output), input + output))
  {
    hide ChargedAt, Tariff.Usd;
    var price := UsdIsCharge(t, model, input, output);
  }

  lemma ChargeOfItem(r: ResourceSpans, span: Span, t: Option<Tariff>)
    ensures YieldsCharge(r.attributes, span, t, Bill(ItemOf(r, span), t))
  {
    hide Text, Number, AttrStr, AttrInt64, Costs, Tariff.Usd;
    var ns, sa := AttrStr(r.attributes, "k8s.namespace.name"), AttrStr(r.attributes, "k8s.serviceaccount.name");
    var model := AttrStr(span.attributes, "gen_ai.request.model");
    var input, output := InputTokens(span), OutputTokens(span);
    TextIs(r.attributes, "k8s.namespace.name", ns);
    TextIs(r.attributes, "k8s.serviceaccount.name", sa);
    TextIs(span.attributes, "gen_ai.request.model", model);
    NumberIs(span.attributes, "gen_ai.usage.input_tokens", input);
    NumberIs(span.attributes, "gen_ai.usage.output_tokens", output);
    if t.Some? {
      UsdCosts(t.value, ns, sa, ModelOf(span), OrZero(input), OrZero(output));
    }
  }

  // ---------------------------------------------------------------- whole requests

  function Flat<T>(parts: seq<seq<T>>): seq<T> {
    if parts == [] then [] else Flat(parts[..|parts| - 1]) + parts[|parts| - 1]
  }

  lemma FlatSnoc<T>(parts: seq<seq<T>>, part: seq<T>)
    ensures Flat(parts + [part]) == Flat(parts) + part
  {
    assert (parts + [part])[..|parts|] == parts;
  }

  /** Place by place, what the handled spans yield at their clock readings. */
  ghost predicate Yields(batch: seq<ResourceSpans>, places: seq<Place>, t: Option<Tariff>, clock: Clock,
                         calls: seq<seq<StoreEvent>>, charges: seq<seq<Charge>>) {
    && |calls| == |charges| == |places|
    && forall n :: 0 <= n < |places| ==>
         && Within(batch, places[n])
         && YieldsCall(Attributes(batch, places[n]), SpanAt(batch, places[n]), clock(n), calls[n])
         && YieldsCharge(Attributes(batch, places[n]), SpanAt(batch, places[n]), t, charges[n])
  }

  /** The items of a request are its handled places with the names of their resources. */
  ghost predicate Locates(batch: seq<ResourceSpans>, places: seq<Place>, items: seq<Item>) {
    && |places| == |items|
    && forall n :: 0 <= n < |places| ==>
         Within(batch, places[n]) && items[n] == ItemOf(batch[places[n].resource], SpanAt(batch, places[n]))
  }

  lemma {:induction false} SpansLocated(r: ResourceSpans, spans: seq<Span>)
    ensures |SpanItems(r, spans)| == |spans|
    ensures forall p :: 0 <= p < |spans| ==> SpanItems(r, spans)[p] == ItemOf(r, spans[p])
  {
    if spans != [] {
      hide ItemOf;
      SpansLocated(r, spans[..|spans| - 1]);
    }
  }

  lemma {:induction false} ScopesLocated(i: nat, r: ResourceSpans, scopes: seq<seq<Span>>)
    ensures var places, items := ScopePlaces(i, scopes), ScopeItems(r, scopes);
      && |places| == |items|
      && forall n :: 0 <= n < |places| ==>
           && places[n].resource == i && places[n].scope < |scopes| && places[n].span < |scopes[places[n].scope]|
           && items[n] == ItemOf(r, scopes[places[n].scope][places[n].span])
  {
    if scopes != [] {
      hide ItemOf;
      ScopesLocated(i, r, scopes[..|scopes| - 1]);
      SpansLocated(r, scopes[|scopes| - 1]);
    }
  }

  lemma {:induction false} ItemsLocated(batch: seq<ResourceSpans>)
    ensures Locates(batch, Places(batch), Items(batch))
  {
    if batch != [] {
      hide ItemOf, Identified, ScopePlaces, ScopeItems;
      var i := |batch| - 1;
      ItemsLocated(batch[..i]);
      ScopesLocated(i, batch[i], batch[i].scopes);
    }
  }

  function CallParts(items: seq<Item>, clock: Clock): (parts: seq<seq<StoreEvent>>)
    ensures |parts| == |items| && forall n :: 0 <= n < |items| ==> parts[n] == ToolCalls(items[n], clock(n))
  {
    if items == [] then []
    else CallParts(items[..|items| - 1], clock) + [ToolCalls(items[|items| - 1], clock(|items| - 1))]
  }

  function ChargeParts(items: seq<Item>, t: Option<Tariff>): (parts: seq<seq<Charge>>)
    ensures |parts| == |items| && forall n :: 0 <= n < |items| ==> parts[n] == Bill(items[n], t)
  {
    if items == [] then [] else ChargeParts(items[..|items| - 1], t) + [Bill(items[|items| - 1], t)]
  }

  lemma {:induction false} FlatCalls(items: seq<Item>, clock: Clock)
    ensures Flat(CallParts(items, clock)) == Recordings(items, clock)
  {
    if items != [] {
      hide ToolCalls, Flat;
      var n := |items| - 1;
      FlatCalls(items[..n], clock);
      FlatSnoc(CallParts(items[..n], clock), ToolCalls(items[n], clock(n)));
    }
  }

  lemma {:induction false} FlatCharges(items: seq<Item>, t: Option<Tariff>)
    ensures Flat(ChargeParts(items, t)) == Bills(items, t)
  {
    if items != [] {
      hide Bill, Flat;
      var n := |items| - 1;
      FlatCharges(items[..n], t);
      FlatSnoc(ChargeParts(items[..n], t), Bill(items[n], t));
    }
  }

  /** A request handles exactly the spans of the resources that name a namespace and a pod, in
      order, and what it records and charges is what these yield, one after the other. */
  lemma RequestYields(batch: seq<ResourceSpans>, t: Option<Tariff>, clock: Clock)
      returns (places: seq<Place>, calls: seq<seq<StoreEvent>>, charges: seq<seq<Charge>>)
    ensures Lists(batch, places) && Yields(batch, places, t, clock, calls, charges)
    ensures Recordings(Items(batch), clock) == Flat(calls) && Bills(Items(batch), t) == Flat(charges)
  {
    hide Lists, YieldsCall, YieldsCharge, ToolCalls, Bill, ItemOf, Flat;
    places := Places(batch);
    PlacesExactly(batch);
    ItemsLocated(batch);
    calls, charges := CallParts(Items(batch), clock), ChargeParts(Items(batch), t);
    FlatCalls(Items(batch), clock);
    FlatCharges(Items(batch), t);
    forall n | 0 <= n < |places|
      ensures YieldsCall(Attributes(batch, places[n]), SpanAt(batch, places[n]), clock(n), calls[n])
      ensures YieldsCharge(Attributes(batch, places[n]), SpanAt(batch, places[n]), t, charges[n])
    {
      CallOfItem(batch[places[n].resource], SpanAt(batch, places[n]), clock(n));
      ChargeOfItem(batch[places[n].resource], SpanAt(batch, places[n]), t);
    }
  }

  /** What a request leaves behind. Without a post or a body it leaves everything as it was; with
      one, store and ledger have taken the calls and charges of its handled spans and no others. */
  method ServeRequest(handler: Handler, req: Request, clock: Clock)
      returns (status: int, ghost places: seq<Place>, ghost calls: seq<seq<StoreEvent>>, ghost charges: seq<seq<Charge>>,
               ghost spends: seq<Event>)
    requires handler.Valid()
    modifies handler.store, handler.store.buffers.Values, if handler.cache == null then {} else handler.cache.entries.Values
    ensures handler.Valid()
    ensures status == if !req.post then 405 else if req.body.None? then 400 else 200
    ensures handler.store.calls == StoreRun(old(handler.store.calls), Flat(calls))
    ensures OnlySpends(spends) && Charges(spends) == Flat(charges)
    ensures handler.Accounts() == Run(old(handler.Accounts()), spends)
    ensures var batch := if status == 200 then req.body.value else [];
      Lists(batch, places) && Yields(batch, places, old(handler.Wired()), clock, calls, charges)
  {
    hide Lists, Yields, Recordings, Bills, Items, StoreRun, Run, Flat;
    ghost var t := handler.Wired();
    status := handler.ServeHTTP(req, clock);
    ghost var batch := if status == 200 then req.body.value else [];
    places, calls, charges := RequestYields(batch, t, clock);
    spends := Spends(Items(batch), t, clock);
    ExportRuns.SpendsCharge(Items(batch), t, clock);
    NoItems();
  }

  lemma NoItems()
    ensures Items([]) == []
  {
  }
}
