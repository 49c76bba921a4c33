/** Tool calls per pod: the sliding-window store as a value, and the never trimmed
    log of calls it must agree with. */
module SpanLog {
  import opened Common

  datatype ToolCall = ToolCall(tool: string, at: Time)

  type Calls = map<string, seq<ToolCall>>

  /** The calls strictly after the cutoff, in order. */
  function Newer(s: seq<ToolCall>, cutoff: Time): seq<ToolCall> {
    if s == [] then []
    else Newer(s[..|s| - 1], cutoff) + if s[|s| - 1].at > cutoff then [s[|s| - 1]] else []
  }

  lemma NewerSnoc(s: seq<ToolCall>, c: ToolCall, cutoff: Time)
    ensures Newer(s + [c], cutoff) == Newer(s, cutoff) + if c.at > cutoff then [c] else []
  {
    assert (s + [c])[..|s|] == s;
  }

  lemma {:induction false} NewerNewer(s: seq<ToolCall>, early: Time, late: Time)
    requires early <= late
    ensures Newer(Newer(s, early), late) == Newer(s, late)
  {
    if s != [] {
      var init, c := s[..|s| - 1], s[|s| - 1];
      NewerNewer(init, early, late);
      if c.at > early {
        NewerSnoc(Newer(init, early), c, late);
      } else {
        assert Newer(s, early) == Newer(init, early);
      }
    }
  }

  function CallsOf(m: Calls, k: string): seq<ToolCall> {
    if k in m then m[k] else []
  }

  function RecordStep(m: Calls, k: string, c: ToolCall): Calls {
    m[k := CallsOf(m, k) + [c]]
  }

  /** Trimming drops the pods left with no call. */
  function TrimStep(m: Calls, cutoff: Time): Calls {
    map k | k in m && Newer(m[k], cutoff) != [] :: Newer(m[k], cutoff)
  }

  function WindowOf(m: Calls, k: string, windowSeconds: int, now: Time): seq<ToolCall> {
    Newer(CallsOf(m, k), now - windowSeconds * SECOND)
  }

  // ---------------------------------------------------------------- the untrimmed log

  const RETENTION: int := 10 * MINUTE

  datatype StoreEvent = Recorded(k: string, call: ToolCall, at: Time) | Trimmed(at: Time)

  function StoreStep(m: Calls, e: StoreEvent): Calls {
    match e
    case Recorded(k, c, _) => RecordStep(m, k, c)
    case Trimmed(at) => TrimStep(m, at - RETENTION)
  }

  /** The store after a log of operations, oldest first. */
  function StoreRun(m: Calls, h: seq<StoreEvent>): Calls {
    if h == [] then m else StoreStep(StoreRun(m, h[..|h| - 1]), h[|h| - 1])
  }

  lemma {:induction false} StoreRunConcat(m: Calls, g: seq<StoreEvent>, h: seq<StoreEvent>)
    ensures StoreRun(m, g + h) == StoreRun(StoreRun(m, g), h)
  {
    if h == [] {
      assert g + h == g;
    } else {
      hide StoreStep;
      StoreRunConcat(m, g, h[..|h| - 1]);
      assert (g + h)[..|g + h| - 1] == g + h[..|h| - 1];
    }
  }

  /** Every call ever recorded for a pod. */
  function FullLog(h: seq<StoreEvent>, k: string): seq<ToolCall> {
    if h == [] then [] else FullLog(h[..|h| - 1], k) + Added(h[|h| - 1], k)
  }

  function Added(e: StoreEvent, k: string): seq<ToolCall> {
    if e.Recorded? && e.k == k then [e.call] else []
  }

  lemma FullLogSnoc(h: seq<StoreEvent>, e: StoreEvent, k: string)
    ensures FullLog(h + [e], k) == FullLog(h, k) + Added(e, k)
  {
    hide Added;
    assert (h + [e])[..|h|] == h;
  }

  /** One step, seen from one pod. */
  lemma StoreStepOf(m: Calls, e: StoreEvent, k: string)
    ensures CallsOf(StoreStep(m, e), k) ==
      if e.Trimmed? then Newer(CallsOf(m, k), e.at - RETENTION) else CallsOf(m, k) + Added(e, k)
  {
  }

  lemma NewerAdded(s: seq<ToolCall>, e: StoreEvent, k: string, cutoff: Time)
    ensures Newer(s + Added(e, k), cutoff) == Newer(s, cutoff) + Newer(Added(e, k), cutoff)
  {
    if Added(e, k) == [] {
      assert s + [] == s;
    } else {
      NewerSnoc(s, e.call, cutoff);
      NewerSnoc([], e.call, cutoff);
      assert [] + [e.call] == [e.call];
    }
  }

  /** The clock never goes backwards and has reached now. */
  ghost predicate Clocked(h: seq<StoreEvent>, now: Time) {
    && (forall i, j :: 0 <= i < j < |h| ==> h[i].at <= h[j].at)
    && (forall i :: 0 <= i < |h| ==> h[i].at <= now)
  }

  /** Beyond the last trim's cutoff nothing is ever lost. */
  lemma {:induction false} RetainedBeyond(h: seq<StoreEvent>, k: string, cutoff: Time)
    requires forall i :: 0 <= i < |h| && h[i].Trimmed? ==> h[i].at - RETENTION <= cutoff
    ensures Newer(CallsOf(StoreRun(map[], h), k), cutoff) == Newer(FullLog(h, k), cutoff)
  {
    if h != [] {
      hide Newer, StoreStep, Added, CallsOf;
      var init, e := h[..|h| - 1], h[|h| - 1];
      RetainedBeyond(init, k, cutoff);
      var m := StoreRun(map[], init);
      StoreStepOf(m, e, k);
      NewerAdded(FullLog(init, k), e, k, cutoff);
      if e.Trimmed? {
        NewerNewer(CallsOf(m, k), e.at - RETENTION, cutoff);
        TrimAddsNothing(e, k, cutoff);
      } else {
        NewerAdded(CallsOf(m, k), e, k, cutoff);
      }
    }
  }

  lemma TrimAddsNothing(e: StoreEvent, k: string, cutoff: Time)
    requires e.Trimmed?
    ensures Newer(Added(e, k), cutoff) == []
  {
  }

  ghost predicate WindowExact(h: seq<StoreEvent>, k: string, windowSeconds: int, now: Time) {
    WindowOf(StoreRun(map[], h), k, windowSeconds, now) == Newer(FullLog(h, k), now - windowSeconds * SECOND)
  }

  lemma {:induction false} NewerExactly(s: seq<ToolCall>, cutoff: Time, c: ToolCall)
    ensures multiset(Newer(s, cutoff))[c] == if c.at > cutoff then multiset(s)[c] else 0
  {
    if s != [] {
      NewerExactly(s[..|s| - 1], cutoff, c);
      assert s == s[..|s| - 1] + [s[|s| - 1]];
    }
  }

  /** A window holds exactly the stored calls that are less than its length old, times in
      nanoseconds, each as often as it was recorded. */
  lemma WindowHolds(m: Calls, k: string, windowSeconds: int, now: Time, c: ToolCall)
    ensures multiset(WindowOf(m, k, windowSeconds, now))[c]
         == if k in m && now - c.at < windowSeconds * 1_000_000_000 then multiset(m[k])[c] else 0
  {
    NewerExactly(CallsOf(m, k), now - windowSeconds * SECOND, c);
  }

  /** For windows up to the retention, the trimmed store answers every query as the
      untrimmed log would, call for call and in order. */
  lemma WindowMatchesFullLog(h: seq<StoreEvent>, k: string, windowSeconds: int, now: Time)
    requires Clocked(h, now) && windowSeconds <= 600
    ensures WindowExact(h, k, windowSeconds, now)
  {
    RetainedBeyond(h, k, now - windowSeconds * SECOND);
  }

  /** A window beyond the retention loses calls: one recorded call, trimmed at the age of
      ten minutes, is still inside the window. */
  lemma LongWindowLosesCalls(k: string, windowSeconds: int) returns (h: seq<StoreEvent>, now: Time)
    requires windowSeconds > 600
    ensures Clocked(h, now) && !WindowExact(h, k, windowSeconds, now)
  {
    hide Newer, StoreStep, CallsOf, StoreRun, FullLog;
    var c := ToolCall("tool", 0);
    now := RETENTION;
    h := [Recorded(k, c, 0), Trimmed(now)];
    RecordedThenTrimmed(h, k, c, now);
    NewerSnoc([], c, now - RETENTION);
    NewerSnoc([], c, now - windowSeconds * SECOND);
    NewerEmpty(now - RETENTION);
    NewerEmpty(now - windowSeconds * SECOND);
    assert [] + [c] == [c];
  }

  lemma NewerEmpty(cutoff: Time)
    ensures Newer([], cutoff) == []
  {
  }

  lemma RecordedThenTrimmed(h: seq<StoreEvent>, k: string, c: ToolCall, at: Time)
    requires h == [Recorded(k, c, 0), Trimmed(at)]
    ensures CallsOf(StoreRun(map[], h), k) == Newer([c], at - RETENTION) && FullLog(h, k) == [c]
  {
    hide Newer, StoreStep, CallsOf;
    SingleCall(h[0], c);
    assert h[..1] == [h[0]];
    StoreStepOf(StoreRun(map[], [h[0]]), h[1], k);
  }

  lemma SingleCall(e: StoreEvent, c: ToolCall)
    requires e.Recorded? && e.call == c
    ensures CallsOf(StoreRun(map[], [e]), e.k) == [c] && FullLog([e], e.k) == [c]
  {
    assert [e][..0] == [];
    StoreStepOf(map[], e, e.k);
  }

  /** Together: a window length is answered exactly in every run precisely up to ten minutes. */
  lemma RetentionIsTheLimit(k: string, windowSeconds: int)
    ensures (forall h, now :: Clocked(h, now) ==> WindowExact(h, k, windowSeconds, now)) <==> windowSeconds <= 600
  {
    if windowSeconds <= 600 {
      forall h, now | Clocked(h, now) ensures WindowExact(h, k, windowSeconds, now) {
        WindowMatchesFullLog(h, k, windowSeconds, now);
      }
    } else {
      var h, now := LongWindowLosesCalls(k, windowSeconds);
    }
  }

  /** Calls recorded for, and trims of, other pods never change a pod's calls. */
  lemma StoreIsolation(g: seq<StoreEvent>, h: seq<StoreEvent>, k: string)
    requires OwnEvents(g, k) == OwnEvents(h, k)
    ensures CallsOf(StoreRun(map[], g), k) == CallsOf(StoreRun(map[], h), k)
  {
    OwnEventsSuffice(g, k);
    OwnEventsSuffice(h, k);
  }

  /** The trims, and the calls of one pod. */
  function OwnEvents(h: seq<StoreEvent>, k: string): seq<StoreEvent> {
    if h == [] then []
    else OwnEvents(h[..|h| - 1], k) + if h[|h| - 1].Recorded? && h[|h| - 1].k != k then [] else [h[|h| - 1]]
  }

  lemma {:induction false} OwnEventsSuffice(h: seq<StoreEvent>, k: string)
    ensures CallsOf(StoreRun(map[], h), k) == CallsOf(StoreRun(map[], OwnEvents(h, k)), k)
  {
    if h != [] {
      hide StoreStep, CallsOf, Newer;
      var init, e := h[..|h| - 1], h[|h| - 1];
      OwnEventsSuffice(init, k);
      var own := OwnEvents(h, k);
      StoreStepOf(StoreRun(map[], init), e, k);
      if e.Recorded? && e.k != k {
        assert own == OwnEvents(init, k);
      } else {
        assert own[..|own| - 1] == OwnEvents(init, k);
        StoreStepOf(StoreRun(map[], OwnEvents(init, k)), e, k);
      }
    }
  }
}
