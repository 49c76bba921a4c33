/** Applying a remediation: which cluster operation is attempted, what is reported, and
    what the policy's detection count says afterwards. */
module Remediation {
  import opened Common

  /** Other stands for any value the API does not define, the empty one included. */
  datatype Action = InjectFault | EvictPod | SuspendWorkload | Other(text: string)

  datatype OwnerRef = OwnerRef(kind: string, name: string)

  datatype PodInfo = PodInfo(namespace: string, name: string, owners: seq<OwnerRef>)

  /** How the API server answers: the owners of a ReplicaSet (None: the Get failed), whether a
      Deployment is found, and whether a delete, a scale and a status write succeed. */
  datatype Cluster = Cluster(
    replicaSetOwners: string -> Option<seq<OwnerRef>>,
    deploymentFound: string -> bool,
    deleteOk: bool,
    scaleOk: bool,
    statusOk: bool)

  /** The attempts a remediation makes, in order. */
  datatype Op =
    | DeletePod(namespace: string, pod: string)
    | ScaleToZero(namespace: string, deployment: string)
    | Event(applied: Action)
    | StatusWrite(detectionCount: int, ok: bool)

  // ---------------------------------------------------------------- the decision

  /** The name of the first owner of the kind, "" if there is none. */
  function FirstNamed(refs: seq<OwnerRef>, kind: string): string {
    if refs == [] then "" else if refs[0].kind == kind then refs[0].name else FirstNamed(refs[1..], kind)
  }

  lemma {:induction false} FirstNamedIsFirst(refs: seq<OwnerRef>, kind: string, i: nat)
    requires i < |refs| && refs[i].kind == kind && forall j :: 0 <= j < i ==> refs[j].kind != kind
    ensures FirstNamed(refs, kind) == refs[i].name
  {
    if i > 0 {
      assert refs[0].kind != kind;
      FirstNamedIsFirst(refs[1..], kind, i - 1);
    }
  }

  lemma {:induction false} NoneNamed(refs: seq<OwnerRef>, kind: string)
    requires forall j :: 0 <= j < |refs| ==> refs[j].kind != kind
    ensures FirstNamed(refs, kind) == ""
  {
    if refs != [] {
      NoneNamed(refs[1..], kind);
    }
  }

  /** What is reported as applied, what is attempted, and whether that failed. */
  datatype Decision = Decision(applied: Action, attempt: seq<Op>, failed: bool)

  function Evicting(pod: PodInfo, c: Cluster): Decision {
    Decision(EvictPod, [DeletePod(pod.namespace, pod.name)], !c.deleteOk)
  }

  function Suspending(pod: PodInfo, c: Cluster): Decision {
    var rs := FirstNamed(pod.owners, "ReplicaSet");
    if rs == "" then Evicting(pod, c)
    else if c.replicaSetOwners(rs).None? then Decision(SuspendWorkload, [], true)
    else
      var deployment := FirstNamed(c.replicaSetOwners(rs).value, "Deployment");
      if deployment == "" then Evicting(pod, c)
      else if !c.deploymentFound(deployment) then Decision(SuspendWorkload, [], true)
      else Decision(SuspendWorkload, [ScaleToZero(pod.namespace, deployment)], !c.scaleOk)
  }

  function Decide(action: Action, fallback: Action, pod: PodInfo, c: Cluster): Decision {
    match action
    case EvictPod => Evicting(pod, c)
    case SuspendWorkload => Suspending(pod, c)
    case InjectFault => if fallback == SuspendWorkload then Suspending(pod, c) else Evicting(pod, c)
    case Other(_) => Evicting(pod, c)
  }

  predicate IsAction(op: Op) { op.DeletePod? || op.ScaleToZero? }

  predicate WantsSuspend(action: Action, fallback: Action) {
    action == SuspendWorkload || (action == InjectFault && fallback == SuspendWorkload)
  }

  /** At most one of delete and scale is attempted; EvictPod is reported exactly when the delete
      was attempted; otherwise SuspendWorkload is reported, which happens exactly when it was
      wanted and the owner chain was not seen to end early. It fails exactly when nothing was
      attempted or the API server refused the attempt. */
  lemma ReportsWhatItDid(action: Action, fallback: Action, pod: PodInfo, c: Cluster)
    ensures var d := Decide(action, fallback, pod, c);
      && |d.attempt| <= 1 && (forall op :: op in d.attempt ==> IsAction(op))
      && (d.applied == EvictPod <==> d.attempt == [DeletePod(pod.namespace, pod.name)])
      && d.applied in {EvictPod, SuspendWorkload}
      && d.failed == (if d.attempt == [] then true else if d.attempt[0].DeletePod? then !c.deleteOk else !c.scaleOk)
      && (d.applied == SuspendWorkload <==>
            var rs := FirstNamed(pod.owners, "ReplicaSet");
            && WantsSuspend(action, fallback) && rs != ""
            && (c.replicaSetOwners(rs).Some? ==> FirstNamed(c.replicaSetOwners(rs).value, "Deployment") != ""))
  {
    hide FirstNamed;
  }

  /** A reported SuspendWorkload really attempted to scale something to zero exactly when both
      lookups succeeded; then it was the first Deployment owning the first ReplicaSet owner. */
  lemma SuspendReportIsTrueExactlyWhen(action: Action, fallback: Action, pod: PodInfo, c: Cluster)
    requires Decide(action, fallback, pod, c).applied == SuspendWorkload
    ensures var rs := FirstNamed(pod.owners, "ReplicaSet");
      && (Decide(action, fallback, pod, c).attempt != [] <==>
            c.replicaSetOwners(rs).Some?
            && c.deploymentFound(FirstNamed(c.replicaSetOwners(rs).value, "Deployment")))
      && (Decide(action, fallback, pod, c).attempt != [] ==>
            Decide(action, fallback, pod, c).attempt
              == [ScaleToZero(pod.namespace, FirstNamed(c.replicaSetOwners(rs).value, "Deployment"))])
  {
    hide FirstNamed;
  }

  /** A report of something that was not attempted: the lookup of the owning ReplicaSet fails. */
  lemma SuspendReportedWithoutAttempt(c: Cluster)
    requires c.replicaSetOwners("rs") == None
    ensures Decide(SuspendWorkload, EvictPod, PodInfo("team", "agent", [OwnerRef("ReplicaSet", "rs")]), c)
         == Decision(SuspendWorkload, [], true)
  {
  }

  // ---------------------------------------------------------------- the executor

  class Policy {
    const action: Action
    const fallback: Action
    const emitEvent: bool
    var detectionCount: int
    var lastDetection: Option<Time>
    var lastAffectedPod: string

    constructor (action: Action, fallback: Action, emitEvent: bool, detectionCount: int)
      ensures this.action == action && this.fallback == fallback && this.emitEvent == emitEvent
      ensures this.detectionCount == detectionCount
    {
      this.action, this.fallback, this.emitEvent := action, fallback, emitEvent;
      this.detectionCount, lastDetection, lastAffectedPod := detectionCount, None, "";
    }
  }

  class Executor {
    /** Everything attempted so far. */
    var ops: seq<Op>

    constructor ()
      ensures ops == []
    {
      ops := [];
    }

    method Evict(pod: PodInfo, c: Cluster) returns (failed: bool)
      modifies this
      ensures ops == old(ops) + Evicting(pod, c).attempt && failed == Evicting(pod, c).failed
    {
      ops := ops + [DeletePod(pod.namespace, pod.name)];
      failed := !c.deleteOk;
    }

    /** Pod to ReplicaSet to Deployment, along the first owner reference of each kind. */
    method Suspend(pod: PodInfo, c: Cluster) returns (applied: Action, failed: bool)
      modifies this
      ensures var d := Suspending(pod, c);
        applied == d.applied && failed == d.failed && ops == old(ops) + d.attempt
    {
      var rs := "";
      var i := 0;
      while i < |pod.owners|
        invariant i <= |pod.owners| && rs == ""
        invariant forall j :: 0 <= j < i ==> pod.owners[j].kind != "ReplicaSet"
      {
        if pod.owners[i].kind == "ReplicaSet" {
          rs := pod.owners[i].name;
          FirstNamedIsFirst(pod.owners, "ReplicaSet", i);
          break;
        }
        i := i + 1;
      }
      if i == |pod.owners| {
        NoneNamed(pod.owners, "ReplicaSet");
      }
      assert rs == FirstNamed(pod.owners, "ReplicaSet");
      if rs == "" {
        failed := Evict(pod, c);
        return EvictPod, failed;
      }
      var found := c.replicaSetOwners(rs);
      if found.None? {
        return SuspendWorkload, true;
      }
      var owners, deployment := found.value, "";
      i := 0;
      while i < |owners|
        invariant i <= |owners| && deployment == ""
        invariant forall j :: 0 <= j < i ==> owners[j].kind != "Deployment"
      {
        if owners[i].kind == "Deployment" {
          deployment := owners[i].name;
          FirstNamedIsFirst(owners, "Deployment", i);
          break;
        }
        i := i + 1;
      }
      if i == |owners| {
        NoneNamed(owners, "Deployment");
      }
      assert deployment == FirstNamed(owners, "Deployment");
      if deployment == "" {
        failed := Evict(pod, c);
        return EvictPod, failed;
      }
      if !c.deploymentFound(deployment) {
        return SuspendWorkload, true;
      }
      ops := ops + [ScaleToZero(pod.namespace, deployment)];
      return SuspendWorkload, !c.scaleOk;
    }

    method UpdateStatus(policy: Policy, podName: string, c: Cluster, now: Time)
      modifies this, policy
      ensures policy.detectionCount == old(policy.detectionCount) + 1
      ensures policy.lastDetection == Some(now) && policy.lastAffectedPod == podName
      ensures ops == old(ops) + [StatusWrite(policy.detectionCount, c.statusOk)]
    {
      policy.detectionCount := policy.detectionCount + 1;
      policy.lastDetection := Some(now);
      policy.lastAffectedPod := podName;
      ops := ops + [StatusWrite(policy.detectionCount, c.statusOk)];
    }

    /** The event and the status write follow whatever the action's outcome was. */
    method Remediate(pod: PodInfo, policy: Policy, c: Cluster, now: Time) returns (ok: bool)
      modifies this, policy
      ensures var d := Decide(policy.action, policy.fallback, pod, c);
        && ok == !d.failed
        && ops == old(ops) + d.attempt + (if policy.emitEvent then [Event(d.applied)] else [])
                  + [StatusWrite(policy.detectionCount, c.statusOk)]
      ensures policy.detectionCount == old(policy.detectionCount) + 1
      ensures policy.lastDetection == Some(now) && policy.lastAffectedPod == pod.name
    {
      hide FirstNamed;
      var applied, failed := policy.action, false;
      match policy.action {
        case EvictPod =>
          failed := Evict(pod, c);
        case SuspendWorkload =>
          applied, failed := Suspend(pod, c);
        case InjectFault =>
          if policy.fallback == SuspendWorkload {
            applied, failed := Suspend(pod, c);
          } else {
            applied := EvictPod;
            failed := Evict(pod, c);
          }
        case Other(_) =>
          applied := EvictPod;
          failed := Evict(pod, c);
      }
      if policy.emitEvent {
        ops := ops + [Event(applied)];
      }
      UpdateStatus(policy, pod.name, c, now);
      ok := !failed;
    }
  }

  // ---------------------------------------------------------------- the detection count over runs

  /** One tick's writes for a policy whose listed copy says count: the copy counts on, write by
      write, whether or not the writes succeed. */
  function TickWrites(count: int, outcomes: seq<bool>): (writes: seq<Op>)
    ensures |writes| == |outcomes|
  {
    if outcomes == [] then []
    else TickWrites(count, outcomes[..|outcomes| - 1]) + [StatusWrite(count + |outcomes|, outcomes[|outcomes| - 1])]
  }

  /** The count the API server holds after the writes. */
  function Stored(count: int, writes: seq<Op>): int {
    if writes == [] then count
    else
      var last := writes[|writes| - 1];
      if last.StatusWrite? && last.ok then last.detectionCount else Stored(count, writes[..|writes| - 1])
  }

  /** The count after several ticks, each listing the policy afresh. */
  function StoredAfter(count: int, ticks: seq<seq<bool>>): int {
    if ticks == [] then count
    else
      var before := StoredAfter(count, ticks[..|ticks| - 1]);
      Stored(before, TickWrites(before, ticks[|ticks| - 1]))
  }

  function Remediations(ticks: seq<seq<bool>>): nat {
    if ticks == [] then 0 else Remediations(ticks[..|ticks| - 1]) + |ticks[|ticks| - 1]|
  }

  lemma {:induction false} TickCounts(count: int, outcomes: seq<bool>)
    ensures var s := Stored(count, TickWrites(count, outcomes));
      && count <= s <= count + |outcomes|
      && (s == count + |outcomes| <==> outcomes == [] || outcomes[|outcomes| - 1])
  {
    if outcomes != [] {
      var init := outcomes[..|outcomes| - 1];
      TickCounts(count, init);
      var writes := TickWrites(count, outcomes);
      assert writes[..|writes| - 1] == TickWrites(count, init);
    }
  }

  // ---------------------------------------------------------------- the executor's own writes

  /** The status writes among the operations attempted. */
  function Writes(ops: seq<Op>): seq<Op> {
    if ops == [] then []
    else Writes(ops[..|ops| - 1]) + if ops[|ops| - 1].StatusWrite? then [ops[|ops| - 1]] else []
  }

  lemma {:induction false} WritesConcat(a: seq<Op>, b: seq<Op>)
    ensures Writes(a + b) == Writes(a) + Writes(b)
  {
    if b == [] {
      assert a + b == a;
    } else {
      assert (a + b)[..|a + b| - 1] == a + b[..|b| - 1];
      WritesConcat(a, b[..|b| - 1]);
    }
  }

  lemma {:induction false} NoWrites(ops: seq<Op>)
    requires forall i :: 0 <= i < |ops| ==> !ops[i].StatusWrite?
    ensures Writes(ops) == []
  {
    if ops != [] {
      NoWrites(ops[..|ops| - 1]);
    }
  }

  lemma LastIsOnlyWrite(ops: seq<Op>, others: seq<Op>, write: Op)
    requires write.StatusWrite? && forall i :: 0 <= i < |others| ==> !others[i].StatusWrite?
    ensures Writes(ops + others + [write]) == Writes(ops) + [write]
  {
    NoWrites(others);
    WritesConcat(ops, others);
    WritesConcat(ops + others, [write]);
    assert [write][..0] == [];
  }

  /** A pod to remediate, what the cluster answers meanwhile, and when. */
  datatype Job = Job(pod: PodInfo, cluster: Cluster, at: Time)

  /** How the status writes of the jobs end. */
  function Outcomes(jobs: seq<Job>): (oks: seq<bool>)
    ensures |oks| == |jobs|
  {
    if jobs == [] then [] else Outcomes(jobs[..|jobs| - 1]) + [jobs[|jobs| - 1].cluster.statusOk]
  }

  function TickOutcomes(ticks: seq<seq<Job>>): (oks: seq<seq<bool>>)
    ensures |oks| == |ticks| && forall i :: 0 <= i < |ticks| ==> oks[i] == Outcomes(ticks[i])
  {
    if ticks == [] then [] else TickOutcomes(ticks[..|ticks| - 1]) + [Outcomes(ticks[|ticks| - 1])]
  }

  lemma OutcomesSnoc(count: int, jobs: seq<Job>, job: Job)
    ensures TickWrites(count, Outcomes(jobs + [job]))
         == TickWrites(count, Outcomes(jobs)) + [StatusWrite(count + |jobs| + 1, job.cluster.statusOk)]
  {
    assert (jobs + [job])[..|jobs|] == jobs;
    var oks := Outcomes(jobs + [job]);
    assert oks[..|oks| - 1] == Outcomes(jobs);
  }

  /** One remediation makes one status write, behind everything else it attempts. */
  method RemediateJob(e: Executor, policy: Policy, job: Job)
    modifies e, policy
    ensures policy.detectionCount == old(policy.detectionCount) + 1
    ensures Writes(e.ops) == Writes(old(e.ops)) + [StatusWrite(policy.detectionCount, job.cluster.statusOk)]
  {
    ghost var ops, d := e.ops, Decide(policy.action, policy.fallback, job.pod, job.cluster);
    ghost var event := if policy.emitEvent then [Event(d.applied)] else [];
    var _ := e.Remediate(job.pod, policy, job.cluster, job.at);
    ReportsWhatItDid(policy.action, policy.fallback, job.pod, job.cluster);
    forall i | 0 <= i < |d.attempt + event| ensures !(d.attempt + event)[i].StatusWrite? {
      assert i < |d.attempt| ==> d.attempt[i] in d.attempt;
    }
    ghost var write := StatusWrite(policy.detectionCount, job.cluster.statusOk);
    LastIsOnlyWrite(ops, d.attempt + event, write);
    assert e.ops == ops + (d.attempt + event) + [write];
  }

  lemma NothingYet(ops: seq<Op>, count: int)
    ensures Writes(ops) + TickWrites(count, Outcomes([])) == Writes(ops)
  {
  }

  method RemediateNext(e: Executor, policy: Policy, job: Job, ghost done: seq<Job>, ghost start: int, ghost before: seq<Op>)
    requires policy.detectionCount == start + |done|
    requires Writes(e.ops) == before + TickWrites(start, Outcomes(done))
    modifies e, policy
    ensures policy.detectionCount == start + |done + [job]|
    ensures Writes(e.ops) == before + TickWrites(start, Outcomes(done + [job]))
  {
    hide Writes, Outcomes, TickWrites;
    RemediateJob(e, policy, job);
    OutcomesSnoc(start, done, job);
  }

  /** A tick's remediations under one policy: the copy the tick listed counts every call, and the
      status writes are those of TickWrites. */
  method RemediateAll(e: Executor, policy: Policy, jobs: seq<Job>)
    modifies e, policy
    ensures policy.detectionCount == old(policy.detectionCount) + |jobs|
    ensures Writes(e.ops) == Writes(old(e.ops)) + TickWrites(old(policy.detectionCount), Outcomes(jobs))
  {
    hide Writes, Outcomes, TickWrites;
    NothingYet(e.ops, policy.detectionCount);
    ghost var before, start := Writes(e.ops), policy.detectionCount;
    ghost var done: seq<Job> := [];
    for i := 0 to |jobs|
      invariant done == jobs[..i] && policy.detectionCount == start + |done|
      invariant Writes(e.ops) == before + TickWrites(start, Outcomes(done))
    {
      RemediateNext(e, policy, jobs[i], done, start, before);
      done := done + [jobs[i]];
    }
    assert jobs[..|jobs|] == jobs;
  }

  /** The number of remediations of a run of ticks. */
  function Calls(ticks: seq<seq<Job>>): nat {
    if ticks == [] then 0 else Calls(ticks[..|ticks| - 1]) + |ticks[|ticks| - 1]|
  }

  lemma {:induction false} CallsAreRemediations(ticks: seq<seq<Job>>)
    ensures Remediations(TickOutcomes(ticks)) == Calls(ticks)
  {
    if ticks != [] {
      CallsAreRemediations(ticks[..|ticks| - 1]);
      assert TickOutcomes(ticks)[..|ticks| - 1] == TickOutcomes(ticks[..|ticks| - 1]);
    }
  }

  predicate LastWriteOk(outcomes: seq<bool>) {
    outcomes == [] || outcomes[|outcomes| - 1]
  }

  /** detectionCount never exceeds the remediations made, and equals them exactly when in every
      tick the last status write for the policy succeeded; failures before it are caught up. */
  lemma {:induction false} DetectionCountExactlyWhen(count: int, ticks: seq<seq<bool>>)
    ensures StoredAfter(count, ticks) <= count + Remediations(ticks)
    ensures StoredAfter(count, ticks) == count + Remediations(ticks)
       <==> forall i :: 0 <= i < |ticks| ==> LastWriteOk(ticks[i])
  {
    if ticks != [] {
      var init, last := ticks[..|ticks| - 1], ticks[|ticks| - 1];
      DetectionCountExactlyWhen(count, init);
      TickCounts(StoredAfter(count, init), last);
      assert ticks == init + [last];
    }
  }

  lemma NextTick(count: int, ticks: seq<seq<Job>>, jobs: seq<Job>)
    ensures var before := StoredAfter(count, TickOutcomes(ticks));
      StoredAfter(count, TickOutcomes(ticks + [jobs])) == Stored(before, TickWrites(before, Outcomes(jobs)))
    ensures Calls(ticks + [jobs]) == Calls(ticks) + |jobs|
    ensures StoredAfter(count, TickOutcomes([])) == count && Calls([]) == 0
  {
    hide Stored, TickWrites, Outcomes;
    assert (ticks + [jobs])[..|ticks|] == ticks;
    var oks := TickOutcomes(ticks + [jobs]);
    assert oks[..|oks| - 1] == TickOutcomes(ticks);
  }

  /** One tick: the policy is listed with the count stored, and the writes of its remediations
      leave the API server with the count returned. */
  method RunTick(e: Executor, action: Action, fallback: Action, emitEvent: bool, count: int, jobs: seq<Job>)
    returns (stored: int)
    modifies e
    ensures |Writes(e.ops)| == |Writes(old(e.ops))| + |jobs|
    ensures stored == Stored(count, TickWrites(count, Outcomes(jobs)))
  {
    hide Writes, Outcomes, TickWrites, Stored;
    var policy := new Policy(action, fallback, emitEvent, count);
    var before := |Writes(e.ops)|;
    RemediateAll(e, policy, jobs);
    var made := Writes(e.ops)[before..];
    assert made == TickWrites(count, Outcomes(jobs));
    stored := Stored(count, made);
  }

  /** Ticks of remediations under one policy: every remediation makes one status write; the count
      stored in the end never exceeds the remediations made, and equals them exactly when in every
      tick that made any the last write succeeded. */
  method RunTicks(e: Executor, action: Action, fallback: Action, emitEvent: bool, count: int, ticks: seq<seq<Job>>)
    returns (stored: int)
    modifies e
    ensures |Writes(e.ops)| == |Writes(old(e.ops))| + Calls(ticks)
    ensures stored <= count + Calls(ticks)
    ensures stored == count + Calls(ticks) <==> forall i :: 0 <= i < |ticks| ==> LastWriteOk(Outcomes(ticks[i]))
  {
    hide Writes, Outcomes, TickOutcomes, TickWrites, Stored, StoredAfter, Calls;
    NextTick(count, [], []);
    assert ticks[..0] == [];
    stored := count;
    for i := 0 to |ticks|
      invariant stored == StoredAfter(count, TickOutcomes(ticks[..i]))
      invariant |Writes(e.ops)| == |Writes(old(e.ops))| + Calls(ticks[..i])
    {
      stored := RunTick(e, action, fallback, emitEvent, stored, ticks[i]);
      assert ticks[..i + 1] == ticks[..i] + [ticks[i]];
      NextTick(count, ticks[..i], ticks[i]);
    }
    assert ticks[..|ticks|] == ticks;
    DetectionCountExactlyWhen(count, TickOutcomes(ticks));
    CallsAreRemediations(ticks);
  }
}
