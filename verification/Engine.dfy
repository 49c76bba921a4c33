/** The heuristic engine: a cooldown map, the span store it samples, and its tick. */
module Engine {
  import opened Common
  import opened SpanLog
  import opened SpanStorage
  import opened Detection

  /** The highest number of calls of any single tool: count per tool, then take the maximum
      in whatever order the map iteration delivers the counts. */
  method MaxSameToolCount(calls: seq<ToolCall>) returns (max: nat)
    ensures forall tool :: Count(calls, tool) <= max
    ensures exists tool :: Count(calls, tool) == max
    ensures forall threshold :: max >= threshold <==> Trips(calls, threshold)
  {
    var counts: map<string, nat> := map[];
    for i := 0 to |calls|
      invariant forall tool :: Count(calls[..i], tool) == if tool in counts then counts[tool] else 0
    {
      var tool := calls[i].tool;
      assert calls[..i + 1] == calls[..i] + [calls[i]];
      forall t ensures Count(calls[..i + 1], t) == Count(calls[..i], t) + if t == tool then 1 else 0 {
        CountSnoc(calls[..i], calls[i], t);
      }
      counts := counts[tool := (if tool in counts then counts[tool] else 0) + 1];
    }
    assert calls[..|calls|] == calls;
    max := 0;
    var pending := counts.Keys;
    ghost var top: Option<string> := None;
    while pending != {}
      invariant pending <= counts.Keys
      invariant forall tool :: tool in counts && tool !in pending ==> counts[tool] <= max
      invariant if top.Some? then top.value in counts && counts[top.value] == max else max == 0
    {
      var tool :| tool in pending;
      if counts[tool] > max {
        max := counts[tool];
        top := Some(tool);
      }
      pending := pending - {tool};
    }
    if top.Some? {
      assert Count(calls, top.value) == max;
    } else {
      assert Count(calls, "") == max;
    }
  }

  lemma NoProbes(cd: Cooldown, calls: Calls, now: Time)
    ensures Eval(cd, calls, [], now) == Outcome(cd, [])
  {
  }

  class Engine {
    var cooldown: Cooldown
    const store: SpanStore

    constructor (store: SpanStore)
      ensures this.store == store && cooldown == map[]
    {
      this.store := store;
      cooldown := map[];
    }

    predicate IsOnCooldown(namespace: string, pod: string, now: Time)
      reads this
    {
      OnCooldown(cooldown, Key(namespace, pod), now)
    }

    /** The duration asked for is ignored: only the starting time is kept. */
    method SetCooldown(namespace: string, pod: string, duration: int, now: Time)
      modifies this`cooldown
      ensures cooldown == old(cooldown)[Key(namespace, pod) := now]
    {
      cooldown := cooldown[Key(namespace, pod) := now];
    }

    /** One listed, running pod under one policy: skipped on cooldown, otherwise remediated
        when its window trips the threshold. */
    method EvaluatePod(i: nat, pod: Pod, otel: OTelCriteria, now: Time) returns (fire: bool)
      requires store.Valid()
      modifies this`cooldown
      ensures fire <==> Fires(Outcome(old(cooldown), []), store.calls, Probe(i, pod, otel), now)
      ensures cooldown == if fire then old(cooldown)[pod.StoreKey() := now] else old(cooldown)
    {
      hide Trips, WindowOf;
      if IsOnCooldown(pod.namespace, pod.name, now) {
        return false;
      }
      var calls := store.Window(pod.namespace, pod.name, otel.windowSeconds, now);
      var max := MaxSameToolCount(calls);
      fire := max >= otel.maxSameToolCalls;
      if fire {
        SetCooldown(pod.namespace, pod.name, otel.windowSeconds * 2 * SECOND, now);
      }
    }

    /** Policies in order, and for each its listed pods in order. fired lists the pods handed
        to the executor; policies is None when listing them failed. */
    method Evaluate(policies: Option<seq<Policy>>, now: Time) returns (fired: seq<Probe>)
      requires store.Valid()
      modifies this`cooldown
      ensures var probes := if policies.Some? then Probes(policies.value) else [];
        Outcome(cooldown, fired) == Eval(old(cooldown), store.calls, probes, now)
    {
      hide Loops, OnCooldown, Eval;
      NoProbes(cooldown, store.calls, now);
      fired := [];
      if policies.None? {
        return;
      }
      var ps := policies.value;
      ghost var done: seq<Probe> := [];
      for i := 0 to |ps|
        invariant done == Probes(ps[..i])
        invariant Outcome(cooldown, fired) == Eval(old(cooldown), store.calls, done, now)
      {
        var policy := ps[i];
        assert ps[..i + 1][..i] == ps[..i];
        if policy.otel.None? || !policy.selectorValid || policy.listing.None? {
          continue;
        }
        var otel, pods := policy.otel.value, policy.listing.value;
        for j := 0 to |pods|
          invariant done == Probes(ps[..i]) + PodProbes(i, otel, pods[..j])
          invariant Outcome(cooldown, fired) == Eval(old(cooldown), store.calls, done, now)
        {
          var pod := pods[j];
          assert pods[..j + 1][..j] == pods[..j];
          if !pod.running {
            continue;
          }
          var p := Probe(i, pod, otel);
          EvalSnoc(old(cooldown), store.calls, done, p, now);
          done := done + [p];
          var fire := EvaluatePod(i, pod, otel, now);
          if fire {
            fired := fired + [p];
          }
        }
        assert pods[..|pods|] == pods;
      }
      assert ps[..|ps|] == ps;
    }

    /** One tick of Start: trim to the last ten minutes, then evaluate. */
    method Tick(policies: Option<seq<Policy>>, now: Time) returns (fired: seq<Probe>)
      requires store.Valid()
      modifies this`cooldown, store, store.buffers.Values
      ensures store.Valid() && store.calls == TrimStep(old(store.calls), now - RETENTION)
      ensures store.buffers.Values <= old(store.buffers.Values)
      ensures var probes := if policies.Some? then Probes(policies.value) else [];
        Outcome(cooldown, fired) == Eval(old(cooldown), store.calls, probes, now)
    {
      store.Trim(10 * MINUTE, now);
      fired := Evaluate(policies, now);
    }
  }
}
