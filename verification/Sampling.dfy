/** Whole ticks: they are runs of the engine's atomic steps, and sampling often enough
    misses no loop. */
module Sampling {
  import opened Common
  import opened SpanLog
  import opened Detection
  import opened LoopRuns

  // ---------------------------------------------------------------- a tick is a run of steps

  function StepsOf(probes: seq<Probe>, now: Time): seq<Step> {
    if probes == [] then []
    else
      var p := probes[|probes| - 1];
      StepsOf(probes[..|probes| - 1], now)
        + ProbeSteps(p.pod.StoreKey(), p.otel.windowSeconds, p.otel.maxSameToolCalls, now)
  }

  predicate Matches(r: Remediation, p: Probe, now: Time) {
    r.k == p.pod.StoreKey() && r.threshold == p.otel.maxSameToolCalls && r.at == now
  }

  /** The monitor has, since s, done what the evaluation o says: same cooldowns, and its new
      remediations are those of o, in order, at this time. */
  ghost predicate Tracks(s: Monitor, s': Monitor, o: Outcome, now: Time) {
    && s'.log == s.log && s'.store == s.store && s'.phase.Idle? && s'.cooldown == o.cooldown
    && |s'.fired| == |s.fired| + |o.fired| && s'.fired[..|s.fired|] == s.fired
    && forall j :: |s.fired| <= j < |s'.fired| ==> Matches(s'.fired[j], o.fired[j - |s.fired|], now)
  }

  lemma ProbeTracks(s: Monitor, s': Monitor, o: Outcome, p: Probe, now: Time)
    requires Tracks(s, s', o, now)
    ensures Tracks(s, MonitorRun(s', ProbeSteps(p.pod.StoreKey(), p.otel.windowSeconds, p.otel.maxSameToolCalls, now)),
                   EvalStep(o, s.store, p, now), now)
  {
    hide Trips, Newer, CallsOf, Evidence, MonitorRun, OnCooldown;
    var k, w, threshold := p.pod.StoreKey(), p.otel.windowSeconds, p.otel.maxSameToolCalls;
    ProbeRun(s', k, w, threshold, now);
    var checked := Next(s', Check(k, w, threshold, now));
    var end := Next(Next(checked, Sample(now)), Fire(now));
    if Fires(o, s.store, p, now) {
      assert end.fired[..|s'.fired|] == s'.fired;
      assert end.fired[..|s.fired|] == s.fired;
      assert forall j :: |s.fired| <= j < |s'.fired| ==> end.fired[j] == s'.fired[j];
      assert Matches(end.fired[|s'.fired|], p, now);
    } else {
      assert end == s';
    }
  }

  /** One evaluation with all its clock readings equal and nothing recorded meanwhile is the
      run of its check, sample and fire steps. */
  lemma {:induction false} EvaluationIsARun(s: Monitor, probes: seq<Probe>, now: Time)
    requires s.phase.Idle?
    ensures Tracks(s, MonitorRun(s, StepsOf(probes, now)), Eval(s.cooldown, s.store, probes, now), now)
  {
    if probes != [] {
      hide Next, EvalStep, ProbeSteps, Tracks;
      var init, p := probes[..|probes| - 1], probes[|probes| - 1];
      EvaluationIsARun(s, init, now);
      var s' := MonitorRun(s, StepsOf(init, now));
      ProbeTracks(s, s', Eval(s.cooldown, s.store, init, now), p, now);
      MonitorConcat(s, StepsOf(init, now), ProbeSteps(p.pod.StoreKey(), p.otel.windowSeconds, p.otel.maxSameToolCalls, now));
    }
  }

  // ---------------------------------------------------------------- runs of calls and ticks

  /** A tick carries the probes its successful listings produced. */
  datatype SysEvent = Called(k: string, call: ToolCall, at: Time) | Ticked(at: Time, probes: seq<Probe>)

  /** What an event does to the span store; a tick begins with a trim. */
  function OnStore(e: SysEvent): StoreEvent {
    match e
    case Called(k, c, at) => Recorded(k, c, at)
    case Ticked(at, _) => Trimmed(at)
  }

  function StoreLog(h: seq<SysEvent>): seq<StoreEvent> {
    if h == [] then [] else StoreLog(h[..|h| - 1]) + [OnStore(h[|h| - 1])]
  }

  ghost function CooldownAfter(h: seq<SysEvent>): Cooldown {
    if h == [] then map[]
    else
      match h[|h| - 1]
      case Called(_, _, _) => CooldownAfter(h[..|h| - 1])
      case Ticked(at, probes) =>
        Eval(CooldownAfter(h[..|h| - 1]), StoreRun(map[], StoreLog(h)), probes, at).cooldown
  }

  ghost predicate InOrder(h: seq<SysEvent>) {
    forall i, j :: 0 <= i < j < |h| ==> h[i].at <= h[j].at
  }

  /** The time of the last tick before position i, or the engine's start. */
  function LastTick(h: seq<SysEvent>, i: nat, start: Time): Time
    requires i <= |h|
  {
    if i == 0 then start else if h[i - 1].Ticked? then h[i - 1].at else LastTick(h, i - 1, start)
  }

  ghost predicate TicksEvery(h: seq<SysEvent>, start: Time, interval: int) {
    forall i :: 0 <= i < |h| && h[i].Ticked? ==> h[i].at <= LastTick(h, i, start) + interval
  }

  /** How many calls of the tool, none older than earliest, the run has recorded for the pod. */
  function Recent(h: seq<SysEvent>, k: string, tool: string, earliest: Time): nat {
    if h == [] then 0
    else
      var e := h[|h| - 1];
      Recent(h[..|h| - 1], k, tool, earliest)
        + if e.Called? && e.k == k && e.call.tool == tool && e.call.at >= earliest then 1 else 0
  }

  lemma {:induction false} LastTickBefore(h: seq<SysEvent>, i: nat, start: Time, r: Time)
    requires i <= |h| && start <= r
    requires forall j :: 0 <= j < i && h[j].Ticked? ==> h[j].at <= r
    ensures LastTick(h, i, start) <= r
  {
    if i > 0 && !h[i - 1].Ticked? {
      LastTickBefore(h, i - 1, start, r);
    }
  }

  lemma StoreLogSnoc(h: seq<SysEvent>, e: SysEvent)
    ensures StoreLog(h + [e]) == StoreLog(h) + [OnStore(e)]
  {
    assert (h + [e])[..|h|] == h;
  }

  lemma {:induction false} TrimTimes(h: seq<SysEvent>, now: Time)
    requires forall i :: 0 <= i < |h| ==> h[i].at <= now
    ensures forall i :: 0 <= i < |StoreLog(h)| ==> StoreLog(h)[i].at <= now
  {
    if h != [] {
      TrimTimes(h[..|h| - 1], now);
    }
  }

  /** The recent calls are among those the untrimmed log has beyond an earlier cutoff. */
  lemma {:induction false} RecentCounted(h: seq<SysEvent>, k: string, tool: string, earliest: Time, cutoff: Time)
    requires cutoff < earliest
    ensures Recent(h, k, tool, earliest) <= Count(Newer(FullLog(StoreLog(h), k), cutoff), tool)
  {
    hide FullLog, Newer, Count, Added;
    if h != [] {
      var init, e := h[..|h| - 1], h[|h| - 1];
      RecentCounted(init, k, tool, earliest, cutoff);
      assert h == init + [e];
      StoreLogSnoc(init, e);
      var se := OnStore(e);
      FullLogSnoc(StoreLog(init), se, k);
      NewerAdded(FullLog(StoreLog(init), k), se, k, cutoff);
      CountGrows(Newer(FullLog(StoreLog(init), k), cutoff), se, k, cutoff, tool);
    }
  }

  lemma CountGrows(s: seq<ToolCall>, e: StoreEvent, k: string, cutoff: Time, tool: string)
    ensures Count(s + Newer(Added(e, k), cutoff), tool) ==
      Count(s, tool) + if e.Recorded? && e.k == k && e.call.at > cutoff && e.call.tool == tool then 1 else 0
  {
    hide Newer, Count;
    NewerEmpty(cutoff);
    assert s + [] == s;
    if Added(e, k) != [] {
      NewerSnoc([], e.call, cutoff);
      assert [] + [e.call] == [e.call];
      CountSnoc(s, e.call, tool);
    }
  }

  // ---------------------------------------------------------------- sampling completeness

  /** At a tick, recent calls newer than the window's cutoff are in the window. */
  lemma WindowHoldsRecent(before: seq<SysEvent>, tick: SysEvent, p: Probe, tool: string, earliest: Time)
    requires tick.Ticked? && forall i :: 0 <= i < |before| ==> before[i].at <= tick.at
    requires p.otel.windowSeconds <= 600 && tick.at - p.otel.windowSeconds * SECOND < earliest
    requires Recent(before, p.pod.StoreKey(), tool, earliest) >= p.otel.maxSameToolCalls
    ensures Loops(StoreRun(map[], StoreLog(before + [tick])), p, tick.at)
  {
    hide Newer, Count, FullLog, StoreRun, Recent, CallsOf;
    var k, cutoff := p.pod.StoreKey(), tick.at - p.otel.windowSeconds * SECOND;
    var log := StoreLog(before + [tick]);
    StoreLogSnoc(before, tick);
    FullLogSnoc(StoreLog(before), Trimmed(tick.at), k);
    assert FullLog(log, k) == FullLog(StoreLog(before), k);
    TrimTimes(before, tick.at);
    RetainedBeyond(log, k, cutoff);
    RecentCounted(before, k, tool, earliest, cutoff);
  }

  /** If a tool's calls reach a probe's threshold, all recorded before the first tick at or
      after time r, and the oldest of them plus the window outlives r plus the tick interval,
      then that tick leaves the probed pod on cooldown: it was remediated now or is still
      within two minutes of an earlier remediation. */
  lemma SamplingCompleteness(h: seq<SysEvent>, j: nat, start: Time, interval: int, r: Time,
                             p: Probe, tool: string, earliest: Time)
    requires InOrder(h) && TicksEvery(h, start, interval) && start <= r
    requires j < |h| && h[j].Ticked? && h[j].at >= r && p in h[j].probes
    requires forall i :: 0 <= i < j && h[i].Ticked? ==> h[i].at < r
    requires Recent(h[..j], p.pod.StoreKey(), tool, earliest) >= p.otel.maxSameToolCalls
    requires p.otel.windowSeconds <= 600
    requires r + interval < earliest + p.otel.windowSeconds * SECOND
    ensures OnCooldown(CooldownAfter(h[..j + 1]), p.pod.StoreKey(), h[j].at)
  {
    hide Recent, Loops, StoreRun, StoreLog, Eval, OnCooldown, LastTick;
    LastTickBefore(h, j, start, r);
    assert h[..j + 1] == h[..j] + [h[j]] && h[..j + 1][..j] == h[..j];
    WindowHoldsRecent(h[..j], h[j], p, tool, earliest);
    LoopingPodOnCooldown(CooldownAfter(h[..j]), StoreRun(map[], StoreLog(h[..j + 1])), h[j].probes, p, h[j].at);
  }

  lemma LoopingPodOnCooldown(cd: Cooldown, calls: Calls, probes: seq<Probe>, p: Probe, now: Time)
    requires p in probes && Loops(calls, p, now)
    ensures OnCooldown(Eval(cd, calls, probes, now).cooldown, p.pod.StoreKey(), now)
  {
    hide Loops;
    var k := p.pod.StoreKey();
    var i :| 0 <= i < |probes| && probes[i] == p;
    assert LoopsAt(calls, probes, k, now, i);
    FirstLooperIsFirst(calls, probes, k, now);
    TickExactness(cd, calls, probes, k, now);
  }
}
