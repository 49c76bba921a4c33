/** Loop detection on values: counting calls, thresholds, the cooldown map, and what
    one evaluation over a list of policies does. */
module Detection {
  import opened Common
  import opened SpanLog

  datatype OTelCriteria = OTelCriteria(maxSameToolCalls: int, windowSeconds: int)

  datatype Pod = Pod(namespace: string, name: string, running: bool)
  {
    function StoreKey(): string { Key(namespace, name) }
  }

  /** listing is what the API server returned for the policy's selector in its namespace,
      None when the call failed. */
  datatype Policy = Policy(name: string, otel: Option<OTelCriteria>, selectorValid: bool, listing: Option<seq<Pod>>)

  // ---------------------------------------------------------------- thresholds

  function Count(calls: seq<ToolCall>, tool: string): (n: nat)
    ensures n <= |calls|
  {
    if calls == [] then 0
    else Count(calls[..|calls| - 1], tool) + if calls[|calls| - 1].tool == tool then 1 else 0
  }

  lemma CountSnoc(calls: seq<ToolCall>, c: ToolCall, tool: string)
    ensures Count(calls + [c], tool) == Count(calls, tool) + if c.tool == tool then 1 else 0
  {
    assert (calls + [c])[..|calls|] == calls;
  }

  /** Some single tool was called at least threshold times. */
  ghost predicate Trips(calls: seq<ToolCall>, threshold: int) {
    exists tool :: Count(calls, tool) >= threshold
  }

  // ---------------------------------------------------------------- cooldown

  type Cooldown = map<string, Time>

  const COOLDOWN: int := 2 * MINUTE

  predicate OnCooldown(cd: Cooldown, k: string, now: Time) {
    k in cd && now - cd[k] < COOLDOWN
  }

  // ---------------------------------------------------------------- one evaluation

  /** One (policy, running pod) pair, in the order the nested loops visit them. */
  datatype Probe = Probe(policy: nat, pod: Pod, otel: OTelCriteria)

  function PodProbes(i: nat, otel: OTelCriteria, pods: seq<Pod>): seq<Probe> {
    if pods == [] then []
    else
      var pod := pods[|pods| - 1];
      PodProbes(i, otel, pods[..|pods| - 1]) + if pod.running then [Probe(i, pod, otel)] else []
  }

  predicate Evaluated(p: Policy) {
    p.otel.Some? && p.selectorValid && p.listing.Some?
  }

  function Probes(policies: seq<Policy>): seq<Probe> {
    if policies == [] then []
    else
      var i := |policies| - 1;
      var p := policies[i];
      Probes(policies[..i]) + if Evaluated(p) then PodProbes(i, p.otel.value, p.listing.value) else []
  }

  /** The pod's calls in the probe's window reach its threshold. */
  ghost predicate Loops(calls: Calls, p: Probe, now: Time) {
    Trips(WindowOf(calls, p.pod.StoreKey(), p.otel.windowSeconds, now), p.otel.maxSameToolCalls)
  }

  /** The cooldown map and the remediations started so far, oldest first. */
  datatype Outcome = Outcome(cooldown: Cooldown, fired: seq<Probe>)

  ghost predicate Fires(o: Outcome, calls: Calls, p: Probe, now: Time) {
    !OnCooldown(o.cooldown, p.pod.StoreKey(), now) && Loops(calls, p, now)
  }

  ghost function EvalStep(o: Outcome, calls: Calls, p: Probe, now: Time): Outcome {
    if Fires(o, calls, p, now)
    then Outcome(o.cooldown[p.pod.StoreKey() := now], o.fired + [p])
    else o
  }

  ghost function Eval(cd: Cooldown, calls: Calls, probes: seq<Probe>, now: Time): Outcome {
    if probes == [] then Outcome(cd, [])
    else EvalStep(Eval(cd, calls, probes[..|probes| - 1], now), calls, probes[|probes| - 1], now)
  }

  lemma EvalSnoc(cd: Cooldown, calls: Calls, probes: seq<Probe>, p: Probe, now: Time)
    ensures Eval(cd, calls, probes + [p], now) == EvalStep(Eval(cd, calls, probes, now), calls, p, now)
  {
    assert (probes + [p])[..|probes|] == probes;
  }

  // ---------------------------------------------------------------- tick exactness

  /** The first probe of a pod under which it loops. */
  ghost function FirstLooper(calls: Calls, probes: seq<Probe>, k: string, now: Time): Option<Probe> {
    if probes == [] then None
    else
      var p := probes[|probes| - 1];
      match FirstLooper(calls, probes[..|probes| - 1], k, now)
      case Some(q) => Some(q)
      case None => if p.pod.StoreKey() == k && Loops(calls, p, now) then Some(p) else None
  }

  ghost predicate LoopsAt(calls: Calls, probes: seq<Probe>, k: string, now: Time, i: int) {
    0 <= i < |probes| && probes[i].pod.StoreKey() == k && Loops(calls, probes[i], now)
  }

  lemma {:induction false} FirstLooperIsFirst(calls: Calls, probes: seq<Probe>, k: string, now: Time)
    ensures FirstLooper(calls, probes, k, now) == None <==> forall i :: !LoopsAt(calls, probes, k, now, i)
    ensures FirstLooper(calls, probes, k, now).Some? ==>
      exists i :: LoopsAt(calls, probes, k, now, i) && FirstLooper(calls, probes, k, now).value == probes[i]
                  && forall j :: j < i ==> !LoopsAt(calls, probes, k, now, j)
  {
    if probes != [] {
      hide Loops;
      var init, n := probes[..|probes| - 1], |probes| - 1;
      FirstLooperIsFirst(calls, init, k, now);
      assert forall i :: i < n ==> (LoopsAt(calls, probes, k, now, i) <==> LoopsAt(calls, init, k, now, i));
      assert forall i :: i > n ==> !LoopsAt(calls, probes, k, now, i);
      if FirstLooper(calls, init, k, now) == None {
        if LoopsAt(calls, probes, k, now, n) {
          assert FirstLooper(calls, probes, k, now) == Some(probes[n]);
        }
      } else {
        var i :| LoopsAt(calls, init, k, now, i) && FirstLooper(calls, init, k, now).value == init[i]
                 && forall j :: j < i ==> !LoopsAt(calls, init, k, now, j);
        assert LoopsAt(calls, probes, k, now, i);
      }
    }
  }

  function FiredFor(fired: seq<Probe>, k: string): seq<Probe> {
    if fired == [] then []
    else FiredFor(fired[..|fired| - 1], k) + if fired[|fired| - 1].pod.StoreKey() == k then [fired[|fired| - 1]] else []
  }

  lemma FiredForSnoc(fired: seq<Probe>, p: Probe, k: string)
    ensures FiredFor(fired + [p], k) == FiredFor(fired, k) + if p.pod.StoreKey() == k then [p] else []
  {
    assert (fired + [p])[..|fired|] == fired;
  }

  /** What one pod sees of an evaluation: remediated exactly when it was not on cooldown and
      loops under some probe, then once, under the first such probe, with a cooldown starting
      now; otherwise its cooldown entry stays as it was. */
  ghost predicate Exact(cd: Cooldown, o: Outcome, first: Option<Probe>, k: string, now: Time) {
    var remediated := !OnCooldown(cd, k, now) && first.Some?;
    && FiredFor(o.fired, k) == (if remediated then [first.value] else [])
    && (k in o.cooldown <==> k in cd || remediated)
    && (k in o.cooldown ==> o.cooldown[k] == if remediated then now else cd[k])
  }

  lemma ExactStep(cd: Cooldown, o: Outcome, first: Option<Probe>, calls: Calls, p: Probe, k: string, now: Time)
    requires Exact(cd, o, first, k, now)
    ensures var next := if first == None && p.pod.StoreKey() == k && Loops(calls, p, now) then Some(p) else first;
      Exact(cd, EvalStep(o, calls, p, now), next, k, now)
  {
    hide Loops, FiredFor;
    FiredForSnoc(o.fired, p, k);
  }

  /** One evaluation of the nested loops over policies and pods is exact for every pod. */
  lemma {:induction false} TickExactness(cd: Cooldown, calls: Calls, probes: seq<Probe>, k: string, now: Time)
    ensures Exact(cd, Eval(cd, calls, probes, now), FirstLooper(calls, probes, k, now), k, now)
  {
    if probes != [] {
      hide Loops, Exact, EvalStep;
      var init, p := probes[..|probes| - 1], probes[|probes| - 1];
      TickExactness(cd, calls, init, k, now);
      ExactStep(cd, Eval(cd, calls, init, now), FirstLooper(calls, init, k, now), calls, p, k, now);
    }
  }

  // ---------------------------------------------------------------- from policies to pods

  lemma {:induction false} PodProbesExactly(i: nat, otel: OTelCriteria, pods: seq<Pod>, p: Probe)
    ensures p in PodProbes(i, otel, pods)
       <==> p.policy == i && p.otel == otel && p.pod in pods && p.pod.running
  {
    if pods != [] {
      PodProbesExactly(i, otel, pods[..|pods| - 1], p);
      assert pods == pods[..|pods| - 1] + [pods[|pods| - 1]];
    }
  }

  ghost predicate ProbedBy(policies: seq<Policy>, p: Probe) {
    && p.policy < |policies| && Evaluated(policies[p.policy])
    && p.otel == policies[p.policy].otel.value
    && p.pod in policies[p.policy].listing.value && p.pod.running
  }

  /** The probes are the running pods listed for the policies with a heuristic section, a
      valid selector and a successful listing, policy by policy. */
  lemma {:induction false} ProbesExactly(policies: seq<Policy>, p: Probe)
    ensures p in Probes(policies) <==> ProbedBy(policies, p)
  {
    if policies != [] {
      var n := |policies| - 1;
      ProbesExactly(policies[..n], p);
      if Evaluated(policies[n]) {
        PodProbesExactly(n, policies[n].otel.value, policies[n].listing.value, p);
      }
      assert ProbedBy(policies[..n], p) <==> ProbedBy(policies, p) && p.policy < n;
    }
  }

  lemma {:induction false} ProbesInPolicyOrder(policies: seq<Policy>)
    ensures var ps := Probes(policies); forall i, j :: 0 <= i < j < |ps| ==> ps[i].policy <= ps[j].policy
  {
    if policies != [] {
      var n := |policies| - 1;
      ProbesInPolicyOrder(policies[..n]);
      forall i | 0 <= i < |Probes(policies)| ensures i < |Probes(policies[..n])| ==> Probes(policies)[i].policy < n
        ensures i >= |Probes(policies[..n])| ==> Probes(policies)[i].policy == n
      {
        var p := Probes(policies)[i];
        if i < |Probes(policies[..n])| {
          assert p in Probes(policies[..n]);
          ProbesExactly(policies[..n], p);
        } else {
          var own := PodProbes(n, policies[n].otel.value, policies[n].listing.value);
          assert p in own;
          PodProbesExactly(n, policies[n].otel.value, policies[n].listing.value, p);
        }
      }
    }
  }

  ghost predicate LoopsUnder(policies: seq<Policy>, calls: Calls, k: string, now: Time, p: Probe) {
    ProbedBy(policies, p) && p.pod.StoreKey() == k && Loops(calls, p, now)
  }

  /** A pod has a first looping probe exactly when it is running and listed for some policy
      whose threshold its window trips; the first one belongs to the earliest such policy. */
  lemma FirstLooperIsEarliestPolicy(policies: seq<Policy>, calls: Calls, k: string, now: Time)
    ensures var first := FirstLooper(calls, Probes(policies), k, now);
      && (first.Some? <==> exists p :: LoopsUnder(policies, calls, k, now, p))
      && (first.Some? ==> LoopsUnder(policies, calls, k, now, first.value))
      && (first.Some? ==> forall p :: LoopsUnder(policies, calls, k, now, p) ==> first.value.policy <= p.policy)
  {
    hide Loops, ProbedBy, FirstLooper;
    var ps := Probes(policies);
    FirstLooperIsFirst(calls, ps, k, now);
    ProbesInPolicyOrder(policies);
    forall p | LoopsUnder(policies, calls, k, now, p)
      ensures exists i :: LoopsAt(calls, ps, k, now, i) && ps[i] == p
    {
      ProbesExactly(policies, p);
      var i :| 0 <= i < |ps| && ps[i] == p;
      assert LoopsAt(calls, ps, k, now, i);
    }
    forall i | LoopsAt(calls, ps, k, now, i) ensures LoopsUnder(policies, calls, k, now, ps[i]) {
      ProbesExactly(policies, ps[i]);
    }
  }
}
