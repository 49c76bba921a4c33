/** One pod's windows and cooldown depend on nothing but its own calls and probes. */
module PodIsolation {
  import opened Common
  import opened SpanLog
  import opened Detection
  import opened Sampling

  function OwnProbes(probes: seq<Probe>, k: string): seq<Probe> {
    if probes == [] then []
    else
      var p := probes[|probes| - 1];
      OwnProbes(probes[..|probes| - 1], k) + if p.pod.StoreKey() == k then [p] else []
  }

  /** The calls of one pod, and every tick with that pod's probes only. */
  function OwnRun(h: seq<SysEvent>, k: string): seq<SysEvent> {
    if h == [] then [] else OwnRun(h[..|h| - 1], k) + OwnEvent(h[|h| - 1], k)
  }

  function OwnEvent(e: SysEvent, k: string): seq<SysEvent> {
    match e
    case Called(j, _, _) => if j == k then [e] else []
    case Ticked(at, probes) => [Ticked(at, OwnProbes(probes, k))]
  }

  lemma OwnEventsSnoc(h: seq<StoreEvent>, e: StoreEvent, k: string)
    ensures OwnEvents(h + [e], k) == OwnEvents(h, k) + if e.Recorded? && e.k != k then [] else [e]
  {
    assert (h + [e])[..|h|] == h;
  }

  lemma {:induction false} OwnStoreLog(h: seq<SysEvent>, k: string)
    ensures StoreLog(OwnRun(h, k)) == OwnEvents(StoreLog(h), k)
  {
    if h != [] {
      hide OwnProbes;
      var init, e := h[..|h| - 1], h[|h| - 1];
      OwnStoreLog(init, k);
      OwnEventsSnoc(StoreLog(init), OnStore(e), k);
      if OwnEvent(e, k) == [] {
        assert OwnRun(h, k) == OwnRun(init, k);
      } else {
        StoreLogSnoc(OwnRun(init, k), OwnEvent(e, k)[0]);
      }
    }
  }

  lemma {:induction false} OwnFirstLooper(calls: Calls, calls': Calls, probes: seq<Probe>, k: string, now: Time)
    requires CallsOf(calls, k) == CallsOf(calls', k)
    ensures FirstLooper(calls, probes, k, now) == FirstLooper(calls', OwnProbes(probes, k), k, now)
  {
    if probes != [] {
      hide Trips, Newer, CallsOf;
      var init, p := probes[..|probes| - 1], probes[|probes| - 1];
      OwnFirstLooper(calls, calls', init, k, now);
      var own := OwnProbes(probes, k);
      if p.pod.StoreKey() == k {
        assert own[..|own| - 1] == OwnProbes(init, k);
      } else {
        assert own == OwnProbes(init, k);
      }
    }
  }

  function LastRemediated(cd: Cooldown, k: string): Option<Time> {
    if k in cd then Some(cd[k]) else None
  }

  lemma TickIsolation(cd: Cooldown, cd': Cooldown, calls: Calls, calls': Calls, probes: seq<Probe>, k: string, now: Time)
    requires LastRemediated(cd, k) == LastRemediated(cd', k) && CallsOf(calls, k) == CallsOf(calls', k)
    ensures LastRemediated(Eval(cd, calls, probes, now).cooldown, k)
         == LastRemediated(Eval(cd', calls', OwnProbes(probes, k), now).cooldown, k)
  {
    hide Eval, FirstLooper, OwnProbes, CallsOf;
    OwnFirstLooper(calls, calls', probes, k, now);
    TickExactness(cd, calls, probes, k, now);
    TickExactness(cd', calls', OwnProbes(probes, k), k, now);
  }

  /** Over any run of calls and ticks, a pod's calls in the store and its cooldown are those of
      the run with every other pod's calls and probes taken out. */
  lemma {:induction false} PodRunIsolation(h: seq<SysEvent>, k: string)
    ensures CallsOf(StoreRun(map[], StoreLog(h)), k) == CallsOf(StoreRun(map[], StoreLog(OwnRun(h, k))), k)
    ensures LastRemediated(CooldownAfter(h), k) == LastRemediated(CooldownAfter(OwnRun(h, k)), k)
  {
    OwnStoreLog(h, k);
    OwnEventsSuffice(StoreLog(h), k);
    if h != [] {
      hide StoreRun, StoreLog, OwnEvents, OwnProbes, Eval, CallsOf, LastRemediated;
      var init, e := h[..|h| - 1], h[|h| - 1];
      PodRunIsolation(init, k);
      var own := OwnRun(h, k);
      if OwnEvent(e, k) == [] {
        assert own == OwnRun(init, k);
      } else {
        assert own[..|own| - 1] == OwnRun(init, k);
        if e.Ticked? {
          TickIsolation(CooldownAfter(init), CooldownAfter(OwnRun(init, k)), StoreRun(map[], StoreLog(h)),
                        StoreRun(map[], StoreLog(own)), e.probes, k, e.at);
        }
      }
    }
  }

  // ---------------------------------------------------------------- pairs instead of keys

  /** Calls as the receiver gets them, for a namespace and a pod name. */
  datatype PairEvent = PairCalled(namespace: string, pod: string, call: ToolCall, at: Time) | PairTicked(at: Time, probes: seq<Probe>)

  function Keyed(e: PairEvent): SysEvent {
    match e
    case PairCalled(ns, pod, call, at) => Called(Key(ns, pod), call, at)
    case PairTicked(at, probes) => Ticked(at, probes)
  }

  function KeyedRun(h: seq<PairEvent>): seq<SysEvent> {
    if h == [] then [] else KeyedRun(h[..|h| - 1]) + [Keyed(h[|h| - 1])]
  }

  function PairProbes(probes: seq<Probe>, ns: string, pod: string): seq<Probe> {
    if probes == [] then []
    else
      var p := probes[|probes| - 1];
      PairProbes(probes[..|probes| - 1], ns, pod) + if p.pod.namespace == ns && p.pod.name == pod then [p] else []
  }

  /** The run with every other pair's calls and probes taken out. */
  function PairRun(h: seq<PairEvent>, ns: string, pod: string): seq<PairEvent> {
    if h == [] then []
    else
      PairRun(h[..|h| - 1], ns, pod) +
        match h[|h| - 1]
        case PairCalled(n, p, call, at) => if n == ns && p == pod then [h[|h| - 1]] else []
        case PairTicked(at, probes) => [PairTicked(at, PairProbes(probes, ns, pod))]
  }

  ghost predicate SlashFreeProbes(probes: seq<Probe>) {
    forall i :: 0 <= i < |probes| ==> SlashFree(probes[i].pod.namespace)
  }

  ghost predicate SlashFreeRun(h: seq<PairEvent>) {
    forall i :: 0 <= i < |h| ==>
      match h[i]
      case PairCalled(ns, _, _, _) => SlashFree(ns)
      case PairTicked(_, probes) => SlashFreeProbes(probes)
  }

  lemma {:induction false} PairProbesAreOwn(probes: seq<Probe>, ns: string, pod: string)
    requires SlashFree(ns) && SlashFreeProbes(probes)
    ensures PairProbes(probes, ns, pod) == OwnProbes(probes, Key(ns, pod))
  {
    if probes != [] {
      var p := probes[|probes| - 1];
      PairProbesAreOwn(probes[..|probes| - 1], ns, pod);
      KeyInjective(p.pod.namespace, p.pod.name, ns, pod);
    }
  }

  lemma KeyedSnoc(h: seq<PairEvent>, e: PairEvent)
    ensures KeyedRun(h + [e]) == KeyedRun(h) + [Keyed(e)]
  {
    assert (h + [e])[..|h|] == h;
  }

  /** Namespaces being slash-free, a pair's run is its key's run. */
  lemma {:induction false} PairRunIsOwnRun(h: seq<PairEvent>, ns: string, pod: string)
    requires SlashFree(ns) && SlashFreeRun(h)
    ensures KeyedRun(PairRun(h, ns, pod)) == OwnRun(KeyedRun(h), Key(ns, pod))
  {
    if h != [] {
      hide PairProbes, OwnProbes, SlashFree;
      var init, e := h[..|h| - 1], h[|h| - 1];
      PairRunIsOwnRun(init, ns, pod);
      match e
      case PairCalled(n, p, call, at) =>
        KeyInjective(n, p, ns, pod);
        if n == ns && p == pod {
          KeyedSnoc(PairRun(init, ns, pod), e);
        } else {
          assert PairRun(h, ns, pod) == PairRun(init, ns, pod);
        }
      case PairTicked(at, probes) =>
        PairProbesAreOwn(probes, ns, pod);
        KeyedSnoc(PairRun(init, ns, pod), PairTicked(at, PairProbes(probes, ns, pod)));
    }
  }

  /** Over whole runs the calls of, and ticks over, any number of other (namespace, pod) pairs
      change neither a pair's windows nor its cooldown. */
  lemma OtherPairsInvisible(h: seq<PairEvent>, ns: string, pod: string, windowSeconds: int, now: Time)
    requires SlashFree(ns) && SlashFreeRun(h)
    ensures var k, all, own := Key(ns, pod), KeyedRun(h), KeyedRun(PairRun(h, ns, pod));
      && WindowOf(StoreRun(map[], StoreLog(all)), k, windowSeconds, now)
           == WindowOf(StoreRun(map[], StoreLog(own)), k, windowSeconds, now)
      && OnCooldown(CooldownAfter(all), k, now) == OnCooldown(CooldownAfter(own), k, now)
      && LastRemediated(CooldownAfter(all), k) == LastRemediated(CooldownAfter(own), k)
  {
    hide StoreRun, StoreLog, CooldownAfter, Newer, CallsOf;
    PairRunIsOwnRun(h, ns, pod);
    PodRunIsolation(KeyedRun(h), Key(ns, pod));
  }
}
