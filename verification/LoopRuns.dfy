/** Runs of loop detection: exports record calls while the engine, step by step, checks
    cooldowns, samples windows and starts remediations. */
module LoopRuns {
  import opened Common
  import opened SpanLog
  import opened Detection

  /** Where the engine is between two of its atomic steps. */
  datatype Phase =
    | Idle
    | Checked(k: string, windowSeconds: int, threshold: int, at: Time)
    | Tripped(k: string, threshold: int, evidence: set<nat>, at: Time)

  /** evidence: the positions, in the log of everything recorded, of the calls in the window
      that tripped the threshold. */
  datatype Remediation = Remediation(k: string, threshold: int, evidence: set<nat>, at: Time)

  datatype Monitor = Monitor(
    log: seq<StoreEvent>,
    store: Calls,
    cooldown: Cooldown,
    phase: Phase,
    fired: seq<Remediation>)

  /** Store steps come from exports and from the engine's trims; the others are the engine's. */
  datatype Step =
    | Store(e: StoreEvent)
    | Check(k: string, windowSeconds: int, threshold: int, checkedAt: Time)
    | Sample(sampledAt: Time)
    | Fire(firedAt: Time)
  {
    function At(): Time {
      match this
      case Store(e) => e.at
      case Check(_, _, _, t) => t
      case Sample(t) => t
      case Fire(t) => t
    }
  }

  predicate IsCall(log: seq<StoreEvent>, i: nat, k: string) {
    i < |log| && log[i].Recorded? && log[i].k == k
  }

  function Evidence(log: seq<StoreEvent>, k: string, cutoff: Time): set<nat> {
    set i: nat | i < |log| && IsCall(log, i, k) && log[i].call.at > cutoff
  }

  const START := Monitor([], map[], map[], Idle, [])

  ghost function Next(s: Monitor, step: Step): Monitor {
    match step
    case Store(e) => s.(log := s.log + [e], store := StoreStep(s.store, e))
    case Check(k, w, threshold, at) =>
      if s.phase.Idle? && !OnCooldown(s.cooldown, k, at) then s.(phase := Checked(k, w, threshold, at)) else s
    case Sample(at) =>
      if !s.phase.Checked? then s
      else
        var k, cutoff := s.phase.k, at - s.phase.windowSeconds * SECOND;
        if Trips(Newer(CallsOf(s.store, k), cutoff), s.phase.threshold)
        then s.(phase := Tripped(k, s.phase.threshold, Evidence(s.log, k, cutoff), s.phase.at))
        else s.(phase := Idle)
    case Fire(at) =>
      if !s.phase.Tripped? then s
      else
        var k := s.phase.k;
        s.(cooldown := s.cooldown[k := at], phase := Idle,
           fired := s.fired + [Remediation(k, s.phase.threshold, s.phase.evidence, at)])
  }

  ghost function MonitorRun(s: Monitor, steps: seq<Step>): Monitor {
    if steps == [] then s else Next(MonitorRun(s, steps[..|steps| - 1]), steps[|steps| - 1])
  }

  /** The clock never goes backwards. */
  ghost predicate Ordered(steps: seq<Step>) {
    forall i, j :: 0 <= i < j < |steps| ==> steps[i].At() <= steps[j].At()
  }

  /** No span claims to start later than it is received. */
  ghost predicate NothingFromTheFuture(steps: seq<Step>) {
    forall i :: 0 <= i < |steps| && steps[i].Store? && steps[i].e.Recorded? ==> steps[i].e.call.at <= steps[i].At()
  }

  ghost predicate WindowsWithin(steps: seq<Step>, seconds: int) {
    forall i :: 0 <= i < |steps| && steps[i].Check? ==> steps[i].windowSeconds <= seconds
  }

  // ---------------------------------------------------------------- evidence and the full log

  lemma {:induction false} EvidenceCounts(log: seq<StoreEvent>, k: string, cutoff: Time)
    ensures |Evidence(log, k, cutoff)| == |Newer(FullLog(log, k), cutoff)|
  {
    hide Evidence, Added, Newer, FullLog;
    if log == [] {
      NoEvidence(k, cutoff);
    } else {
      var init, e := log[..|log| - 1], log[|log| - 1];
      assert log == init + [e];
      EvidenceCounts(init, k, cutoff);
      EvidenceSnoc(init, e, k, cutoff);
      FullLogSnoc(init, e, k);
      NewerAdded(FullLog(init, k), e, k, cutoff);
    }
  }

  lemma NoEvidence(k: string, cutoff: Time)
    ensures Evidence([], k, cutoff) == {} && Newer(FullLog([], k), cutoff) == []
  {
  }

  lemma EvidenceSnoc(log: seq<StoreEvent>, e: StoreEvent, k: string, cutoff: Time)
    ensures var more := e.Recorded? && e.k == k && e.call.at > cutoff;
      && Evidence(log + [e], k, cutoff) == Evidence(log, k, cutoff) + (if more then {|log|} else {})
      && |Evidence(log + [e], k, cutoff)| == |Evidence(log, k, cutoff)| + (if more then 1 else 0)
      && |Newer(Added(e, k), cutoff)| == if more then 1 else 0
  {
    assert |log| !in Evidence(log, k, cutoff);
    assert Added(e, k) != [] ==> Added(e, k)[..0] == [];
  }

  /** A tripped threshold is backed by at least that many distinct recorded calls. */
  lemma TrippedEvidence(log: seq<StoreEvent>, k: string, cutoff: Time, threshold: int)
    requires forall i :: 0 <= i < |log| && log[i].Trimmed? ==> log[i].at - RETENTION <= cutoff
    requires Trips(Newer(CallsOf(StoreRun(map[], log), k), cutoff), threshold)
    ensures |Evidence(log, k, cutoff)| >= threshold
  {
    RetainedBeyond(log, k, cutoff);
    EvidenceCounts(log, k, cutoff);
  }

  // ---------------------------------------------------------------- the invariant of all runs

  /** Recorded calls are not newer than now, and the store is what the log leaves. */
  ghost predicate LogInv(s: Monitor, now: Time) {
    && s.store == StoreRun(map[], s.log)
    && forall i :: 0 <= i < |s.log| ==>
         s.log[i].at <= now && (s.log[i].Recorded? ==> s.log[i].call.at <= s.log[i].at)
  }

  ghost predicate CallsNotAfter(log: seq<StoreEvent>, evidence: set<nat>, k: string, t: Time) {
    forall i :: i in evidence ==> IsCall(log, i, k) && log[i].call.at <= t
  }

  ghost predicate CallsAfter(log: seq<StoreEvent>, evidence: set<nat>, k: string, t: Time) {
    forall i :: i in evidence ==> IsCall(log, i, k) && log[i].call.at > t
  }

  /** A remediation's evidence is no newer than the remediation, and the pod's cooldown
      started no earlier. */
  ghost predicate FiredInv(s: Monitor, now: Time) {
    && (forall k :: k in s.cooldown ==> s.cooldown[k] <= now)
    && forall i :: 0 <= i < |s.fired| ==>
         var r := s.fired[i];
         && r.k in s.cooldown && r.at <= s.cooldown[r.k]
         && CallsNotAfter(s.log, r.evidence, r.k, r.at) && |r.evidence| >= r.threshold
  }

  /** While the engine is at work on a pod, the pod's previous cooldown is over, and what it
      has sampled is newer than the previous remediation. */
  ghost predicate PhaseInv(s: Monitor, now: Time) {
    match s.phase
    case Idle => true
    case Checked(k, w, _, at) =>
      at <= now && w <= 120 && (k in s.cooldown ==> s.cooldown[k] + COOLDOWN <= at)
    case Tripped(k, threshold, ev, at) =>
      && at <= now && |ev| >= threshold && CallsNotAfter(s.log, ev, k, now)
      && (k in s.cooldown ==> s.cooldown[k] + COOLDOWN <= at && CallsAfter(s.log, ev, k, s.cooldown[k]))
  }

  /** Two remediations of one pod: two minutes apart, no call in common. */
  ghost predicate Apart(a: Remediation, b: Remediation) {
    a.k == b.k ==> a.at + COOLDOWN <= b.at && a.evidence !! b.evidence
  }

  ghost predicate AllApart(fired: seq<Remediation>) {
    forall i, j :: 0 <= i < j < |fired| ==> Apart(fired[i], fired[j])
  }

  ghost predicate Inv(s: Monitor, now: Time) {
    LogInv(s, now) && FiredInv(s, now) && PhaseInv(s, now) && AllApart(s.fired)
  }

  lemma InvLater(s: Monitor, now: Time, later: Time)
    requires Inv(s, now) && now <= later
    ensures Inv(s, later)
  {
  }

  lemma StoreKeepsInv(s: Monitor, e: StoreEvent)
    requires Inv(s, e.at) && (e.Recorded? ==> e.call.at <= e.at)
    ensures Inv(Next(s, Store(e)), e.at)
  {
    hide StoreStep;
    var s' := Next(s, Store(e));
    assert s'.log[..|s.log|] == s.log;
    assert forall i: nat, k :: IsCall(s.log, i, k) ==> IsCall(s'.log, i, k) && s'.log[i] == s.log[i];
  }

  lemma CheckKeepsInv(s: Monitor, k: string, w: int, threshold: int, at: Time)
    requires Inv(s, at) && w <= 120
    ensures Inv(Next(s, Check(k, w, threshold, at)), at)
  {
  }

  lemma SampleKeepsInv(s: Monitor, at: Time)
    requires Inv(s, at)
    ensures Inv(Next(s, Sample(at)), at)
  {
    hide Trips, Newer, StoreRun;
    if s.phase.Checked? {
      var k, cutoff := s.phase.k, at - s.phase.windowSeconds * SECOND;
      if Trips(Newer(CallsOf(s.store, k), cutoff), s.phase.threshold) {
        TrippedEvidence(s.log, k, cutoff, s.phase.threshold);
      }
    }
  }

  lemma FireKeepsInv(s: Monitor, at: Time)
    requires Inv(s, at)
    ensures Inv(Next(s, Fire(at)), at)
  {
    if s.phase.Tripped? {
      var s', k := Next(s, Fire(at)), s.phase.k;
      forall i | 0 <= i < |s.fired| ensures Apart(s.fired[i], s'.fired[|s.fired|]) {
        if s.fired[i].k == k {
          forall c | c in s.fired[i].evidence ensures c !in s.phase.evidence {
            assert s.log[c].call.at <= s.cooldown[k];
          }
        }
      }
    }
  }

  lemma {:induction false} RunKeepsInv(steps: seq<Step>, now: Time)
    requires Ordered(steps) && NothingFromTheFuture(steps) && WindowsWithin(steps, 120)
    requires forall i :: 0 <= i < |steps| ==> steps[i].At() <= now
    ensures Inv(MonitorRun(START, steps), now)
  {
    hide Inv;
    if steps == [] {
      StartInv(now);
    } else {
      var init, step := steps[..|steps| - 1], steps[|steps| - 1];
      RunKeepsInv(init, step.At());
      var s := MonitorRun(START, init);
      match step {
        case Store(e) => StoreKeepsInv(s, e);
        case Check(k, w, t, at) => CheckKeepsInv(s, k, w, t, at);
        case Sample(at) => SampleKeepsInv(s, at);
        case Fire(at) => FireKeepsInv(s, at);
      }
      InvLater(MonitorRun(START, steps), step.At(), now);
    }
  }

  lemma StartInv(now: Time)
    ensures Inv(START, now)
  {
  }

  // ---------------------------------------------------------------- spacing, for any windows

  ghost predicate Spaced(a: Remediation, b: Remediation) {
    a.k == b.k ==> a.at + COOLDOWN <= b.at
  }

  /** Cooldowns started no earlier than the remediations behind them, and the pod the engine is
      at work on was off cooldown when it looked. */
  ghost predicate SpacingInv(s: Monitor, now: Time) {
    && (forall i :: 0 <= i < |s.fired| ==> s.fired[i].k in s.cooldown && s.fired[i].at <= s.cooldown[s.fired[i].k])
    && (!s.phase.Idle? ==> s.phase.at <= now)
    && (!s.phase.Idle? && s.phase.k in s.cooldown ==> s.cooldown[s.phase.k] + COOLDOWN <= s.phase.at)
    && (forall i, j :: 0 <= i < j < |s.fired| ==> Spaced(s.fired[i], s.fired[j]))
  }

  lemma StepKeepsSpacing(s: Monitor, step: Step)
    requires SpacingInv(s, step.At())
    ensures SpacingInv(Next(s, step), step.At())
  {
    hide Trips, Newer, StoreStep, Evidence;
  }

  lemma {:induction false} RunKeepsSpacing(steps: seq<Step>, now: Time)
    requires Ordered(steps) && forall i :: 0 <= i < |steps| ==> steps[i].At() <= now
    ensures SpacingInv(MonitorRun(START, steps), now)
  {
    if steps != [] {
      hide Next;
      var init, step := steps[..|steps| - 1], steps[|steps| - 1];
      RunKeepsSpacing(init, step.At());
      StepKeepsSpacing(MonitorRun(START, init), step);
    }
  }

  /** In every run, whatever the windows, two remediations of one pod are at least two
      minutes apart. */
  lemma RemediationsSpaced(steps: seq<Step>, i: nat, j: nat)
    requires Ordered(steps) && i < j < |MonitorRun(START, steps).fired|
    ensures var fired := MonitorRun(START, steps).fired;
      fired[i].k == fired[j].k ==> fired[j].at - fired[i].at >= 120_000_000_000
  {
    RunKeepsSpacing(steps, if steps == [] then 0 else steps[|steps| - 1].At());
    assert Spaced(MonitorRun(START, steps).fired[i], MonitorRun(START, steps).fired[j]);
  }

  // ---------------------------------------------------------------- disjoint evidence

  /** In every run whose windows are at most two minutes, no recorded call lies in the windows
      that triggered two remediations of the same pod, and those are two minutes apart. */
  lemma DisjointEvidence(steps: seq<Step>, i: nat, j: nat)
    requires Ordered(steps) && NothingFromTheFuture(steps) && WindowsWithin(steps, 120)
    requires i < j < |MonitorRun(START, steps).fired|
    ensures var fired := MonitorRun(START, steps).fired;
      fired[i].k == fired[j].k ==> fired[i].evidence !! fired[j].evidence && fired[j].at - fired[i].at >= 120_000_000_000
  {
    RunKeepsInv(steps, if steps == [] then 0 else steps[|steps| - 1].At());
  }

  function ThresholdsOf(fired: seq<Remediation>, k: string): int {
    if fired == [] then 0
    else ThresholdsOf(fired[..|fired| - 1], k) + if fired[|fired| - 1].k == k then fired[|fired| - 1].threshold else 0
  }

  function EvidenceOf(fired: seq<Remediation>, k: string): set<nat> {
    if fired == [] then {}
    else EvidenceOf(fired[..|fired| - 1], k) + if fired[|fired| - 1].k == k then fired[|fired| - 1].evidence else {}
  }

  lemma {:induction false} EvidenceAddsUp(fired: seq<Remediation>, k: string)
    requires AllApart(fired)
    requires forall i :: 0 <= i < |fired| ==> |fired[i].evidence| >= fired[i].threshold
    ensures ThresholdsOf(fired, k) <= |EvidenceOf(fired, k)|
    ensures forall c :: c in EvidenceOf(fired, k) ==> exists i :: 0 <= i < |fired| && fired[i].k == k && c in fired[i].evidence
  {
    if fired != [] {
      var init, r := fired[..|fired| - 1], fired[|fired| - 1];
      EvidenceAddsUp(init, k);
      if r.k == k {
        assert EvidenceOf(init, k) !! r.evidence by {
          forall c | c in EvidenceOf(init, k) ensures c !in r.evidence {
            var i :| 0 <= i < |init| && init[i].k == k && c in init[i].evidence;
            assert Apart(fired[i], fired[|fired| - 1]);
          }
        }
        DisjointUnionSize(EvidenceOf(init, k), r.evidence);
      }
    }
  }

  lemma DisjointUnionSize(a: set<nat>, b: set<nat>)
    requires a !! b
    ensures |a + b| == |a| + |b|
  {
  }

  lemma SubsetSize(a: set<nat>, b: set<nat>)
    requires a <= b
    ensures |a| <= |b|
  {
    assert b == a + (b - a);
    DisjointUnionSize(a, b - a);
  }

  /** Hence the thresholds of all remediations of a pod together never exceed the calls ever
      recorded for it. */
  lemma RemediationsBounded(steps: seq<Step>, k: string)
    requires Ordered(steps) && NothingFromTheFuture(steps) && WindowsWithin(steps, 120)
    ensures var s := MonitorRun(START, steps); ThresholdsOf(s.fired, k) <= |FullLog(s.log, k)|
  {
    var now := if steps == [] then 0 else steps[|steps| - 1].At();
    var s := MonitorRun(START, steps);
    RunKeepsInv(steps, now);
    EvidenceAddsUp(s.fired, k);
    var earliest := EarlierThanAll(s.log);
    assert EvidenceOf(s.fired, k) <= Evidence(s.log, k, earliest);
    SubsetSize(EvidenceOf(s.fired, k), Evidence(s.log, k, earliest));
    EvidenceCounts(s.log, k, earliest);
    NewerAtMost(FullLog(s.log, k), earliest);
  }

  lemma {:induction false} EarlierThanAll(log: seq<StoreEvent>) returns (t: Time)
    ensures forall i :: 0 <= i < |log| && log[i].Recorded? ==> log[i].call.at > t
  {
    t := 0;
    if log != [] {
      t := EarlierThanAll(log[..|log| - 1]);
      var e := log[|log| - 1];
      if e.Recorded? && e.call.at <= t {
        t := e.call.at - 1;
      }
    }
  }

  lemma {:induction false} NewerAtMost(s: seq<ToolCall>, cutoff: Time)
    ensures |Newer(s, cutoff)| <= |s|
  {
    if s != [] {
      NewerAtMost(s[..|s| - 1], cutoff);
    }
  }

  // ---------------------------------------------------------------- the limit is two minutes

  ghost predicate SharesEvidence(steps: seq<Step>) {
    exists i, j :: 0 <= i < j < |MonitorRun(START, steps).fired|
      && MonitorRun(START, steps).fired[i].k == MonitorRun(START, steps).fired[j].k
      && !(MonitorRun(START, steps).fired[i].evidence !! MonitorRun(START, steps).fired[j].evidence)
  }

  /** What the engine does with one (policy, pod) pair at one time. */
  function ProbeSteps(k: string, w: int, threshold: int, at: Time): seq<Step> {
    [Check(k, w, threshold, at), Sample(at), Fire(at)]
  }

  lemma {:induction false} MonitorConcat(s: Monitor, a: seq<Step>, b: seq<Step>)
    ensures MonitorRun(s, a + b) == MonitorRun(MonitorRun(s, a), b)
  {
    if b == [] {
      assert a + b == a;
    } else {
      hide Next;
      MonitorConcat(s, a, b[..|b| - 1]);
      assert (a + b)[..|a + b| - 1] == a + b[..|b| - 1];
    }
  }

  lemma ProbeRun(s: Monitor, k: string, w: int, threshold: int, at: Time)
    ensures MonitorRun(s, ProbeSteps(k, w, threshold, at))
         == Next(Next(Next(s, Check(k, w, threshold, at)), Sample(at)), Fire(at))
  {
    hide Next;
    var ps := ProbeSteps(k, w, threshold, at);
    assert ps[..2][..1][..0] == [];
    assert MonitorRun(s, ps[..2][..1]) == Next(s, ps[0]);
    assert MonitorRun(s, ps[..2]) == Next(Next(s, ps[0]), ps[1]);
  }

  /** The fixed cooldown ignores the window: with any longer window, one call remediates its
      pod twice. */
  lemma LongWindowFiresTwice(k: string, w: int) returns (steps: seq<Step>)
    requires w > 120
    ensures Ordered(steps) && NothingFromTheFuture(steps) && WindowsWithin(steps, w)
    ensures SharesEvidence(steps)
  {
    hide SharesEvidence;
    var c := Recorded(k, ToolCall("tool", 0), 0);
    steps := [Store(c)] + ProbeSteps(k, w, 1, 0) + ProbeSteps(k, w, 1, COOLDOWN);
    TwoRounds(c, k, w);
  }

  lemma TwoRounds(c: StoreEvent, k: string, w: int)
    requires w > 120 && c == Recorded(k, ToolCall("tool", 0), 0)
    ensures SharesEvidence([Store(c)] + ProbeSteps(k, w, 1, 0) + ProbeSteps(k, w, 1, COOLDOWN))
  {
    hide MonitorRun, Next, ProbeSteps, StoreStep, Evidence;
    var first, second := ProbeSteps(k, w, 1, 0), ProbeSteps(k, w, 1, COOLDOWN);
    RecordFirst(c);
    MonitorConcat(START, [Store(c)] + first, second);
    MonitorConcat(START, [Store(c)], first);
    var s := MonitorRun(START, [Store(c)]);
    ProbeRun(s, k, w, 1, 0);
    var s1 := OneRound(s, c, k, w, 0);
    ProbeRun(s1, k, w, 1, COOLDOWN);
    var s2 := OneRound(s1, c, k, w, COOLDOWN);
    assert s2.fired[0] == s2.fired[..1][0] == s1.fired[0];
    assert 0 in s2.fired[0].evidence && 0 in s2.fired[1].evidence;
  }

  lemma RecordFirst(c: StoreEvent)
    ensures MonitorRun(START, [Store(c)]) == Monitor([c], StoreStep(map[], c), map[], Idle, [])
  {
    assert [Store(c)][..0] == [];
    assert START.log + [c] == [c];
  }

  /** With one recorded call at time 0 and the pod off cooldown, one check, sample and fire
      with threshold 1 remediates on that call. */
  lemma OneRound(s: Monitor, c: StoreEvent, k: string, w: int, at: Time) returns (s': Monitor)
    requires c == Recorded(k, ToolCall("tool", 0), 0) && s.log == [c] && s.store == StoreStep(map[], c)
    requires s.phase.Idle? && !OnCooldown(s.cooldown, k, at) && 0 <= at < w * SECOND
    ensures s' == Next(Next(Next(s, Check(k, w, 1, at)), Sample(at)), Fire(at))
    ensures s'.log == s.log && s'.store == s.store && s'.phase.Idle? && s'.cooldown == s.cooldown[k := at]
    ensures |s'.fired| == |s.fired| + 1 && s'.fired[..|s.fired|] == s.fired
    ensures s'.fired[|s.fired|].k == k && 0 in s'.fired[|s.fired|].evidence
  {
    hide Trips, Newer, StoreStep, CallsOf, Evidence, IsCall;
    OneCallTrips(c, k, at - w * SECOND);
    s' := Next(Next(Next(s, Check(k, w, 1, at)), Sample(at)), Fire(at));
  }

  lemma OneCallTrips(c: StoreEvent, k: string, cutoff: Time)
    requires c == Recorded(k, ToolCall("tool", 0), 0) && cutoff < 0
    ensures Trips(Newer(CallsOf(StoreStep(map[], c), k), cutoff), 1)
    ensures 0 in Evidence([c], k, cutoff)
  {
    assert CallsOf(StoreStep(map[], c), k) == [] + [c.call];
    NewerSnoc([], c.call, cutoff);
    NewerEmpty(cutoff);
    var window := Newer(CallsOf(StoreStep(map[], c), k), cutoff);
    assert window == [] + [c.call];
    CountSnoc([], c.call, "tool");
    assert Count(window, "tool") >= 1;
    assert IsCall([c], 0, k);
  }

  /** A bound on the windows keeps evidence disjoint in every run exactly up to two minutes. */
  lemma TwoMinutesIsTheLimit(w: int)
    ensures (forall steps :: Ordered(steps) && NothingFromTheFuture(steps) && WindowsWithin(steps, w)
               ==> !SharesEvidence(steps)) <==> w <= 120
  {
    if w <= 120 {
      forall steps | Ordered(steps) && NothingFromTheFuture(steps) && WindowsWithin(steps, w)
        ensures !SharesEvidence(steps)
      {
        if SharesEvidence(steps) {
          var i, j :| 0 <= i < j < |MonitorRun(START, steps).fired|
            && MonitorRun(START, steps).fired[i].k == MonitorRun(START, steps).fired[j].k
            && !(MonitorRun(START, steps).fired[i].evidence !! MonitorRun(START, steps).fired[j].evidence);
          DisjointEvidence(steps, i, j);
        }
      }
    } else {
      var steps := LongWindowFiresTwice("k", w);
    }
  }
}
