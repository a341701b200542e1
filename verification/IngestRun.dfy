/** The IngestRun controller: one non-idempotent TAMSin Job per run.  What one
    reconcile reads, the evidence it collects from the finished Pod, and the
    plan it commits. */
module IngestRun {
  import opened Base

  datatype Phase = Unset | Pending | Queued | Running | Succeeded | PartiallySucceeded | Failed | Cancelled

  predicate Terminal(phase: Phase) {
    phase.Succeeded? || phase.PartiallySucceeded? || phase.Failed? || phase.Cancelled?
  }

  predicate Successful(phase: Phase) {
    phase.Succeeded? || phase.PartiallySucceeded?
  }

  // ----- Durable results

  datatype Result = Result(key: string, sha256: string, size: int, mediaType: string, verified: bool)

  predicate VerificationRequired(r: Result) {
    TrimSpace(r.key) != ""
  }

  predicate HexDigit(c: char) {
    '0' <= c <= '9' || 'a' <= c <= 'f'
  }

  predicate DigestVerified(r: Result) {
    && r.verified && TrimSpace(r.key) != "" && r.size > 0 && TrimSpace(r.mediaType) != "" && |r.sha256| == 64
    && forall i | 0 <= i < |r.sha256| :: HexDigit(r.sha256[i])
  }

  predicate ResultAcceptable(r: Result) {
    VerificationRequired(r) ==> DigestVerified(r)
  }

  method CheckDigestVerified(r: Result) returns (ok: bool)
    ensures ok <==> DigestVerified(r)
  {
    if !r.verified || TrimSpace(r.key) == "" || r.size <= 0 || TrimSpace(r.mediaType) == "" || |r.sha256| != 64 {
      return false;
    }
    for i := 0 to |r.sha256|
      invariant forall k | 0 <= k < i :: HexDigit(r.sha256[k])
    {
      if !HexDigit(r.sha256[i]) { return false; }
    }
    return true;
  }

  // ----- The event stream of the finished Pod

  datatype Outcome = RunSucceeded | RunPartial | RunInterrupted | RunFailed | UnknownOutcome

  datatype Finish = Finish(outcome: Outcome, exitCode: int, total: nat, succeeded: nat, failed: nat, bytes: nat)

  /** What the event reducer returns for a log; the reducer itself is a separate package. */
  datatype Reduced =
    | ReduceError
    | Reduced(runId: string, nextSequence: nat, finish: Option<Finish>, inputsFinished: seq<bool>)

  datatype Log = Unreadable | TooLongOrUnscannable | Read(reduced: Reduced)

  datatype Summary = Summary(
    runId: string, lastSequence: int, outcome: Outcome, exitCode: int,
    total: int, succeeded: int, failed: int, completed: int, bytes: int)

  datatype Stream = NotFinished | Unavailable | Invalid | Complete(summary: Summary)

  const MAX_INT32 := 0x7fff_ffff
  const MAX_INT64 := 0x7fff_ffff_ffff_ffff

  function CountTrue(s: seq<bool>): nat {
    if s == [] then 0 else CountTrue(s[..|s| - 1]) + if s[|s| - 1] then 1 else 0
  }

  method CountFinished(inputs: seq<bool>) returns (completed: nat)
    ensures completed == CountTrue(inputs)
  {
    completed := 0;
    for i := 0 to |inputs|
      invariant completed == CountTrue(inputs[..i])
    {
      assert inputs[..i + 1][..i] == inputs[..i];
      if inputs[i] { completed := completed + 1; }
    }
    assert inputs[..|inputs|] == inputs;
  }

  predicate WithinStatusBounds(r: Reduced)
    requires r.Reduced? && r.finish.Some?
  {
    var f := r.finish.value;
    && r.nextSequence - 1 <= MAX_INT64 && f.bytes <= MAX_INT64
    && f.total <= MAX_INT32 && f.succeeded <= MAX_INT32 && f.failed <= MAX_INT32
    && |r.inputsFinished| <= MAX_INT32
    && -MAX_INT32 - 1 <= f.exitCode <= MAX_INT32
  }

  function Decode(log: Log): Stream {
    match log
    case Unreadable => Unavailable
    case TooLongOrUnscannable => Invalid
    case Read(r) =>
      if r.ReduceError? || r.finish.None? || r.nextSequence == 0 then Invalid
      else if !WithinStatusBounds(r) then Invalid
      else
        var f := r.finish.value;
        Complete(Summary(r.runId, r.nextSequence - 1, f.outcome, f.exitCode,
                         f.total, f.succeeded, f.failed, CountTrue(r.inputsFinished), f.bytes))
  }

  /** Decodes a log, counting its finished inputs on the way. */
  method DecodeStream(log: Log) returns (stream: Stream)
    ensures stream == Decode(log)
  {
    match log {
      case Unreadable => return Unavailable;
      case TooLongOrUnscannable => return Invalid;
      case Read(r) =>
        if r.ReduceError? || r.finish.None? || r.nextSequence == 0 { return Invalid; }
        if !WithinStatusBounds(r) { return Invalid; }
        var completed := CountFinished(r.inputsFinished);
        var f := r.finish.value;
        return Complete(Summary(r.runId, r.nextSequence - 1, f.outcome, f.exitCode,
                                f.total, f.succeeded, f.failed, completed, f.bytes));
    }
  }

  // ----- Pods

  /** A terminated container, with the log of its Pod. */
  datatype Termination = Termination(pod: string, finishedAt: int, exitCode: int, log: Log)

  datatype ContainerStatus = ContainerStatus(name: string, terminated: Option<(int, int)>)

  /** `labelled`: carries the run and target labels.  `log`: what reading its log yields at this moment. */
  datatype Pod = Pod(name: string, owner: Option<nat>, labelled: bool, containers: seq<ContainerStatus>, log: Log)

  const TAMSIN := "tamsin"

  function PodTerminations(pod: Pod, containers: seq<ContainerStatus>): seq<Termination> {
    if containers == [] then []
    else
      var before, last := PodTerminations(pod, containers[..|containers| - 1]), containers[|containers| - 1];
      if last.name == TAMSIN && last.terminated.Some?
      then before + [Termination(pod.name, last.terminated.value.0, last.terminated.value.1, pod.log)]
      else before
  }

  /** The terminated TAMSin containers of a Job's Pods, in listing order. */
  function Terminations(pods: seq<Pod>, job: nat): seq<Termination> {
    if pods == [] then []
    else
      var before, last := Terminations(pods[..|pods| - 1], job), pods[|pods| - 1];
      if last.owner == Some(job) then before + PodTerminations(last, last.containers) else before
  }

  /** The termination that finished last; the first listed wins a tie. */
  function Latest(ts: seq<Termination>): Option<Termination> {
    if ts == [] then None
    else
      var before, last := Latest(ts[..|ts| - 1]), ts[|ts| - 1];
      if before.None? || last.finishedAt > before.value.finishedAt then Some(last) else before
  }

  ghost predicate FirstLatest(ts: seq<Termination>, k: int) {
    && 0 <= k < |ts|
    && (forall m | 0 <= m < |ts| :: ts[m].finishedAt <= ts[k].finishedAt)
    && (forall m | 0 <= m < k :: ts[m].finishedAt < ts[k].finishedAt)
  }

  lemma FirstLatestStep(ts: seq<Termination>, k: int, t: Termination)
    requires FirstLatest(ts, k)
    ensures FirstLatest(ts + [t], if t.finishedAt > ts[k].finishedAt then |ts| else k)
  {
  }

  lemma {:induction false} LatestIsLast(ts: seq<Termination>) returns (k: int)
    ensures Latest(ts).None? <==> ts == []
    ensures ts != [] ==> FirstLatest(ts, k) && Latest(ts).value == ts[k]
  {
    k := 0;
    if |ts| > 1 {
      var n := |ts| - 1;
      k := LatestIsLast(ts[..n]);
      FirstLatestStep(ts[..n], k, ts[n]);
      assert ts == ts[..n] + [ts[n]];
      k := if ts[n].finishedAt > ts[k].finishedAt then n else k;
    }
  }

  lemma {:induction false} LatestOfExtended(ts: seq<Termination>, more: seq<Termination>, t: Termination)
    ensures Latest(ts + (more + [t])) ==
      var before := Latest(ts + more);
      if before.None? || t.finishedAt > before.value.finishedAt then Some(t) else before
  {
    var all := ts + (more + [t]);
    assert all[..|all| - 1] == ts + more;
  }

  lemma {:induction false} PodTerminationsExactly(pod: Pod, containers: seq<ContainerStatus>, t: Termination)
    ensures t in PodTerminations(pod, containers) <==>
      && t.pod == pod.name && t.log == pod.log
      && ContainerStatus("tamsin", Some((t.finishedAt, t.exitCode))) in containers
  {
    if containers != [] {
      var n := |containers| - 1;
      PodTerminationsExactly(pod, containers[..n], t);
      assert containers == containers[..n] + [containers[n]];
    }
  }

  /** The terminations are those of the TAMSin containers of the Pods this Job owns, and no other's. */
  lemma {:induction false} TerminationsExactly(pods: seq<Pod>, job: nat, t: Termination)
    ensures t in Terminations(pods, job) <==> exists pod | pod in pods && pod.owner == Some(job) ::
      && t.pod == pod.name && t.log == pod.log
      && ContainerStatus("tamsin", Some((t.finishedAt, t.exitCode))) in pod.containers
  {
    if pods != [] {
      var n := |pods| - 1;
      TerminationsExactly(pods[..n], job, t);
      assert pods == pods[..n] + [pods[n]];
      PodTerminationsExactly(pods[n], pods[n].containers, t);
      if pods[n].owner == Some(job) && t in PodTerminations(pods[n], pods[n].containers) { assert pods[n] in pods; }
    }
  }

  /** Picks the owned Pod whose TAMSin container terminated last. */
  method TerminalPodResult(pods: seq<Pod>, job: nat) returns (selected: Option<Termination>)
    ensures selected == Latest(Terminations(pods, job))
  {
    selected := None;
    for i := 0 to |pods|
      invariant selected == Latest(Terminations(pods[..i], job))
    {
      assert pods[..i + 1][..i] == pods[..i];
      ghost var before := Terminations(pods[..i], job);
      if pods[i].owner == Some(job) {
        var statuses := pods[i].containers;
        assert before + [] == before;
        for j := 0 to |statuses|
          invariant selected == Latest(before + PodTerminations(pods[i], statuses[..j]))
        {
          assert statuses[..j + 1][..j] == statuses[..j];
          if statuses[j].name == TAMSIN && statuses[j].terminated.Some? {
            var t := Termination(pods[i].name, statuses[j].terminated.value.0, statuses[j].terminated.value.1, pods[i].log);
            LatestOfExtended(before, PodTerminations(pods[i], statuses[..j]), t);
            if selected.None? || t.finishedAt > selected.value.finishedAt {
              selected := Some(t);
            }
          }
        }
        assert statuses[..|statuses|] == statuses;
      }
    }
    assert pods[..|pods|] == pods;
  }

  /** Reads and validates the stream of the terminal Pod. */
  function Collect(pods: seq<Pod>, job: Job): Stream {
    var pod := Latest(Terminations(pods, job.uid));
    if pod.None? then Unavailable
    else
      var stream := Decode(pod.value.log);
      if stream.Complete? && stream.summary.exitCode != pod.value.exitCode then Invalid else stream
  }

  method CollectStream(pods: seq<Pod>, job: Job) returns (stream: Stream)
    ensures stream == Collect(pods, job)
  {
    var pod := TerminalPodResult(pods, job.uid);
    if pod.None? { return Unavailable; }
    stream := DecodeStream(pod.value.log);
    if stream.Complete? && stream.summary.exitCode != pod.value.exitCode { stream := Invalid; }
  }

  // ----- Job, run and cluster

  /** `finishedAt` is the timestamp the terminal transition carries, if the API server set one. */
  datatype Job = Job(
    uid: nat, belongs: bool, deleting: bool,
    finished: bool, finishedAt: Option<int>, active: bool, started: bool)

  datatype Progress = Progress(total: int, completed: int, succeeded: int, failed: int, bytes: int)

  datatype Status = Status(
    phase: Phase, jobRef: Option<nat>, attempt: nat, startedAt: Option<int>, completedAt: Option<int>,
    tamsinRunId: string, lastEventSequence: int, progress: Progress, result: Result)

  /** `outputValid`: the immutable output intent passes validation. */
  datatype Cluster = Cluster(
    outputValid: bool, cancelRequested: bool, status: Status,
    job: Option<Job>, pods: seq<Pod>, targetPresent: bool,
    now: int, nextUid: nat)

  const OBSERVATION_DEADLINE := 15 * 60 * 1_000_000_000

  predicate DeadlineExpired(job: Job, now: int) {
    job.finishedAt.Some? && now - job.finishedAt.value > OBSERVATION_DEADLINE
  }

  function StreamFailurePhase(job: Job, now: int, stream: Stream): Phase {
    if stream.Invalid? then Failed else if DeadlineExpired(job, now) then Failed else Running
  }

  function PhaseFromJob(job: Job, result: Result, now: int, stream: Stream): Phase {
    if job.finished then
      if !stream.Complete? then Running
      else if (stream.summary.outcome.RunSucceeded? || stream.summary.outcome.RunPartial?) && !ResultAcceptable(result) then
        if DeadlineExpired(job, now) then Failed else Running
      else
        match stream.summary.outcome
        case RunSucceeded => Succeeded
        case RunPartial => PartiallySucceeded
        case _ => Failed
    else if job.active || job.started then Running
    else Queued
  }

  /** A success is held back while a recorded result is not digest-verified. */
  function GuardedPhase(phase: Phase, result: Result): Phase {
    if Successful(phase) && !ResultAcceptable(result) then Running else phase
  }

  method GuardPhase(wanted: Phase, result: Result) returns (phase: Phase)
    ensures phase == GuardedPhase(wanted, result)
  {
    phase := wanted;
    if Successful(wanted) && VerificationRequired(result) {
      var verified := CheckDigestVerified(result);
      if !verified { phase := Running; }
    }
  }

  /** The new status a reconcile computes. */
  function SetPhase(s: Status, job: Option<Job>, phase: Phase, total: nat, attempt: nat, stream: Stream, now: int): Status {
    var s := if stream.Complete? then ApplySummary(s, stream.summary) else s;
    WithPhase(s, job, GuardedPhase(phase, s.result), total, attempt, now)
  }

  function WithPhase(s: Status, job: Option<Job>, phase: Phase, total: nat, attempt: nat, now: int): Status {
    s.(phase := phase,
       progress := if total > 0 then s.progress.(total := total) else s.progress,
       attempt := if attempt > 0 then attempt else s.attempt,
       jobRef := if job.Some? then Some(job.value.uid) else s.jobRef,
       startedAt := if job.Some? && s.startedAt.None? then Some(now) else s.startedAt,
       completedAt := if Terminal(phase) && s.completedAt.None? then Some(now) else s.completedAt)
  }

  function ApplySummary(s: Status, m: Summary): Status {
    s.(tamsinRunId := m.runId,
       lastEventSequence := if m.lastSequence > s.lastEventSequence then m.lastSequence else s.lastEventSequence,
       progress := Progress(m.total, m.completed, m.succeeded, m.failed, m.bytes))
  }

  /** The status object as the controller fills it in, one field after another. */
  class RunStatus {
    var phase: Phase
    var jobRef: Option<nat>
    var attempt: nat
    var startedAt: Option<int>
    var completedAt: Option<int>
    var tamsinRunId: string
    var lastEventSequence: int
    var progress: Progress
    var result: Result

    function Value(): Status
      reads this
    {
      Status(phase, jobRef, attempt, startedAt, completedAt, tamsinRunId, lastEventSequence, progress, result)
    }

    constructor (s: Status)
      ensures Value() == s
    {
      phase, jobRef, attempt := s.phase, s.jobRef, s.attempt;
      startedAt, completedAt := s.startedAt, s.completedAt;
      tamsinRunId, lastEventSequence, progress, result := s.tamsinRunId, s.lastEventSequence, s.progress, s.result;
    }

    method ApplyStreamSummary(m: Summary)
      modifies this
      ensures Value() == ApplySummary(old(Value()), m)
    {
      tamsinRunId := m.runId;
      if m.lastSequence > lastEventSequence { lastEventSequence := m.lastSequence; }
      progress := Progress(m.total, m.completed, m.succeeded, m.failed, m.bytes);
    }

    method RecordPhase(job: Option<Job>, newPhase: Phase, total: nat, newAttempt: nat, now: int)
      modifies this
      ensures Value() == WithPhase(old(Value()), job, newPhase, total, newAttempt, now)
    {
      phase := newPhase;
      if total > 0 { progress := progress.(total := total); }
      if newAttempt > 0 { attempt := newAttempt; }
      if job.Some? {
        jobRef := Some(job.value.uid);
        if startedAt.None? { startedAt := Some(now); }
      }
      if Terminal(phase) && completedAt.None? { completedAt := Some(now); }
    }

    method SetJobPhase(job: Option<Job>, wanted: Phase, total: nat, newAttempt: nat, stream: Stream, now: int)
      modifies this
      ensures Value() == SetPhase(old(Value()), job, wanted, total, newAttempt, stream, now)
    {
      if stream.Complete? { ApplyStreamSummary(stream.summary); }
      var guarded := GuardPhase(wanted, result);
      RecordPhase(job, guarded, total, newAttempt, now);
    }
  }

  // ----- The decision of one reconcile

  /** The admission gates together: target readiness, images, token, retry parent,
      storage backend, profiles, inputs and endpoint. */
  datatype Gate = Refuse | Admit(total: nat, attempt: nat)

  /** What a success rests on, as it was read. */
  datatype Evidence = Evidence(job: Job, pods: seq<Pod>, result: Result)

  datatype Plan =
    | Idle
    | Patch(status: Status, evidence: Option<Evidence>)
    | DeleteThenPatch(status: Status)
    | Create(total: nat, attempt: nat)

  predicate PodsRemain(pods: seq<Pod>, jobRef: Option<nat>) {
    exists i | 0 <= i < |pods| :: pods[i].labelled && (jobRef.None? || pods[i].owner == jobRef)
  }

  function Decide(c: Cluster, gate: Gate): Plan {
    if !c.outputValid then Quiet(c, None, Pending)
    else if Terminal(c.status.phase) then Idle
    else if c.job.Some? && !c.job.value.belongs then Quiet(c, None, Pending)
    else if c.cancelRequested then
      if c.job.None? then Quiet(c, None, if PodsRemain(c.pods, c.status.jobRef) then Running else Cancelled)
      else StopJob(c, c.job.value, Running)
    else if !c.targetPresent then
      if c.job.Some? then StopJob(c, c.job.value, Failed) else Quiet(c, None, Pending)
    else if c.job.Some? then FollowJob(c, c.job.value)
    else if c.status.jobRef.Some? then Quiet(c, None, Failed)
    else if gate.Refuse? then Quiet(c, None, Pending)
    else Create(gate.total, gate.attempt)
  }

  function Quiet(c: Cluster, job: Option<Job>, phase: Phase): Plan {
    Patch(SetPhase(c.status, job, phase, 0, 0, NotFinished, c.now), None)
  }

  /** Cancellation, or a target instance that is gone: delete the Job unless it is going already. */
  function StopJob(c: Cluster, job: Job, phase: Phase): Plan {
    var status := SetPhase(c.status, Some(job), phase, 0, 0, NotFinished, c.now);
    if job.deleting then Patch(status, None) else DeleteThenPatch(status)
  }

  function FollowJob(c: Cluster, job: Job): Plan {
    var stream := if job.finished then Collect(c.pods, job) else NotFinished;
    if stream.Unavailable? || stream.Invalid? then
      Quiet(c, Some(job), StreamFailurePhase(job, c.now, stream))
    else
      var phase := PhaseFromJob(job, c.status.result, c.now, stream);
      Patch(SetPhase(c.status, Some(job), phase, 0, 0, stream, c.now),
            Some(Evidence(job, c.pods, c.status.result)))
  }

  // ----- The reconcile

  function NewJob(uid: nat): Job {
    Job(uid, true, false, false, None, false, false)
  }

  /** All the writes of a plan, nothing coming between them. */
  function Execute(c: Cluster, plan: Plan): Cluster {
    match plan
    case Idle => c
    case Patch(status, _) => c.(status := status)
    case DeleteThenPatch(status) =>
      c.(job := if c.job.Some? then Some(c.job.value.(deleting := true)) else None, status := status)
    case Create(total, attempt) =>
      if c.job.Some? then c
      else
        var job := NewJob(c.nextUid);
        c.(job := Some(job), nextUid := c.nextUid + 1,
           status := SetPhase(c.status, Some(job), Queued, total, attempt, NotFinished, c.now))
  }

  method IngestRunPodsRemain(pods: seq<Pod>, jobRef: Option<nat>) returns (remain: bool)
    ensures remain <==> PodsRemain(pods, jobRef)
  {
    for i := 0 to |pods|
      invariant !PodsRemain(pods[..i], jobRef)
    {
      if pods[i].labelled && (jobRef.None? || pods[i].owner == jobRef) { return true; }
    }
    assert pods[..|pods|] == pods;
    return false;
  }

  class IngestRunReconciler {
    var c: Cluster

    constructor (c: Cluster)
      ensures this.c == c
    {
      this.c := c;
    }

    method Reconcile(gate: Gate)
      modifies this
      ensures c == Execute(old(c), Decide(old(c), gate))
    {
      if !c.outputValid {
        SetStatus(None, Pending, 0, 0, NotFinished);
      } else if Terminal(c.status.phase) {
      } else if c.job.Some? && !c.job.value.belongs {
        SetStatus(None, Pending, 0, 0, NotFinished);
      } else if c.cancelRequested {
        ReconcileCancellation();
      } else if !c.targetPresent {
        if c.job.Some? { Stop(c.job.value, Failed); } else { SetStatus(None, Pending, 0, 0, NotFinished); }
      } else if c.job.Some? {
        Follow(c.job.value);
      } else if c.status.jobRef.Some? {
        SetStatus(None, Failed, 0, 0, NotFinished);
      } else if gate.Refuse? {
        SetStatus(None, Pending, 0, 0, NotFinished);
      } else {
        var job := NewJob(c.nextUid);
        c := c.(job := Some(job), nextUid := c.nextUid + 1);
        SetStatus(Some(job), Queued, gate.total, gate.attempt, NotFinished);
      }
    }

    method SetStatus(job: Option<Job>, phase: Phase, total: nat, attempt: nat, stream: Stream)
      modifies this
      ensures c == old(c).(status := SetPhase(old(c).status, job, phase, total, attempt, stream, old(c).now))
    {
      var status := new RunStatus(c.status);
      status.SetJobPhase(job, phase, total, attempt, stream, c.now);
      c := c.(status := status.Value());
    }

    method ReconcileCancellation()
      requires c.job.Some? ==> c.job.value.belongs
      requires c.outputValid && !Terminal(c.status.phase) && c.cancelRequested
      modifies this
      ensures forall gate :: c == Execute(old(c), Decide(old(c), gate))
    {
      if c.job.None? {
        var remain := IngestRunPodsRemain(c.pods, c.status.jobRef);
        SetStatus(None, if remain then Running else Cancelled, 0, 0, NotFinished);
      } else {
        Stop(c.job.value, Running);
      }
    }

    method Stop(job: Job, phase: Phase)
      requires c.job == Some(job)
      modifies this
      ensures c == Execute(old(c), StopJob(old(c), job, phase))
    {
      if !job.deleting { c := c.(job := Some(job.(deleting := true))); }
      SetStatus(Some(job), phase, 0, 0, NotFinished);
    }

    method Follow(job: Job)
      modifies this
      ensures c == Execute(old(c), FollowJob(old(c), job))
    {
      var stream := NotFinished;
      if job.finished { stream := CollectStream(c.pods, job); }
      if stream.Unavailable? || stream.Invalid? {
        SetStatus(Some(job), StreamFailurePhase(job, c.now, stream), 0, 0, NotFinished);
      } else {
        SetStatus(Some(job), PhaseFromJob(job, c.status.result, c.now, stream), 0, 0, stream);
      }
    }
  }

  // ----- Properties of one decision

  /** What makes a success believable: a finished, owned Job, a complete valid stream in the
      log of the Pod that ended last, its exit code the container's, and no unverified result. */
  predicate Convincing(e: Evidence, phase: Phase) {
    var last := Latest(Terminations(e.pods, e.job.uid));
    && e.job.belongs && e.job.finished && ResultAcceptable(e.result)
    && last.Some? && Decode(last.value.log).Complete?
    && Decode(last.value.log).summary.exitCode == last.value.exitCode
    && Decode(last.value.log).summary.outcome == (if phase.Succeeded? then RunSucceeded else RunPartial)
  }

  lemma SuccessNeedsEvidence(c: Cluster, gate: Gate)
    requires Decide(c, gate).Patch? && Successful(Decide(c, gate).status.phase)
    ensures var plan := Decide(c, gate);
      && plan.evidence == Some(Evidence(c.job.value, c.pods, c.status.result))
      && Convincing(plan.evidence.value, plan.status.phase)
  {
  }

  /** An uncancelled, unfinished run with its target and its own Job in place. */
  predicate Followed(c: Cluster) {
    && c.outputValid && !Terminal(c.status.phase) && !c.cancelRequested && c.targetPresent
    && c.job.Some? && c.job.value.belongs
  }

  /** One reconcile of a followed run succeeds exactly when the evidence is convincing, and as the evidence says. */
  lemma {:induction false} EvidenceDecides(c: Cluster, gate: Gate, phase: Phase)
    requires Followed(c) && Successful(phase)
    ensures Execute(c, Decide(c, gate)).status.phase == phase <==>
      Convincing(Evidence(c.job.value, c.pods, c.status.result), phase)
  {
  }

  /** A log that read as a whole stream: an event at least, a finish, and every number fitting its status field. */
  predicate Sound(log: Log) {
    && log.Read? && log.reduced.Reduced? && log.reduced.finish.Some?
    && var r, f := log.reduced, log.reduced.finish.value;
       && 1 <= r.nextSequence <= 0x8000_0000_0000_0000 && f.bytes < 0x8000_0000_0000_0000
       && f.total < 0x8000_0000 && f.succeeded < 0x8000_0000 && f.failed < 0x8000_0000
       && |r.inputsFinished| < 0x8000_0000 && -0x8000_0000 <= f.exitCode < 0x8000_0000
  }

  lemma DecodedExactly(log: Log)
    ensures log.Unreadable? <==> Decode(log) == Unavailable
    ensures !log.Unreadable? && !Sound(log) <==> Decode(log) == Invalid
    ensures Sound(log) ==>
      var r, f := log.reduced, log.reduced.finish.value;
      Decode(log) == Complete(Summary(r.runId, r.nextSequence - 1, f.outcome, f.exitCode, f.total, f.succeeded, f.failed,
                                      CountTrue(r.inputsFinished), f.bytes))
  {
  }

  /** What one reconcile of a followed run with a finished Job makes of the log of the Pod that
      ended last: no log yet is waited for until the deadline, a bad log fails the run at once,
      a sound one fills in the progress and decides the outcome. */
  lemma {:induction false} FinishedJobOutcome(c: Cluster, gate: Gate)
    requires Followed(c) && c.job.value.finished
    ensures var last, after, job := Latest(Terminations(c.pods, c.job.value.uid)), Execute(c, Decide(c, gate)).status, c.job.value;
      var waited := if job.finishedAt.Some? && c.now - job.finishedAt.value > 900_000_000_000 then Failed else Running;
      && after.jobRef == Some(job.uid) && after.startedAt == (if c.status.startedAt.Some? then c.status.startedAt else Some(c.now))
      && (last.None? || last.value.log.Unreadable? ==> after.phase == waited && after.progress == c.status.progress)
      && (last.Some? && !last.value.log.Unreadable? ==>
            if !Sound(last.value.log) || last.value.log.reduced.finish.value.exitCode != last.value.exitCode then
              after.phase == Failed && after.progress == c.status.progress
            else
              var r, f := last.value.log.reduced, last.value.log.reduced.finish.value;
              && after.progress == Progress(f.total, CountTrue(r.inputsFinished), f.succeeded, f.failed, f.bytes)
              && after.tamsinRunId == r.runId
              && after.lastEventSequence == (if r.nextSequence > c.status.lastEventSequence then r.nextSequence - 1 else c.status.lastEventSequence)
              && after.phase == if !f.outcome.RunSucceeded? && !f.outcome.RunPartial? then Failed
                                else if TrimSpace(c.status.result.key) != "" && !DigestVerified(c.status.result) then waited
                                else if f.outcome.RunSucceeded? then Succeeded else PartiallySucceeded)
  {
    var last := Latest(Terminations(c.pods, c.job.value.uid));
    if last.Some? { DecodedExactly(last.value.log); }
  }

  /** What one reconcile does to a live run that has no finished Job of its own to judge. */
  lemma {:induction false} UnfinishedOutcome(c: Cluster, gate: Gate)
    requires c.outputValid && !Terminal(c.status.phase)
    ensures var after := Execute(c, Decide(c, gate));
      if c.job.Some? && !c.job.value.belongs then after.job == c.job && after.status.phase == Pending
      else if c.cancelRequested then
        if c.job.Some? then after.job == Some(c.job.value.(deleting := true)) && after.status.phase == Running
        else after.job == None && (after.status.phase == Cancelled <==> !PodsRemain(c.pods, c.status.jobRef))
      else if !c.targetPresent then
        if c.job.Some? then after.job == Some(c.job.value.(deleting := true)) && after.status.phase == Failed
        else after.job == None && after.status.phase == Pending
      else if c.job.Some? then
        after.job == c.job &&
        (!c.job.value.finished ==> after.status.phase == if c.job.value.active || c.job.value.started then Running else Queued)
      else if c.status.jobRef.Some? then after.job == None && after.status.phase == Failed
      else if gate.Refuse? then after.job == None && after.status.phase == Pending
      else
        && after.job == Some(NewJob(c.nextUid)) && after.nextUid == c.nextUid + 1
        && after.status.phase == Queued && after.status.jobRef == Some(c.nextUid)
        && (gate.total > 0 ==> after.status.progress.total == gate.total)
        && (gate.attempt > 0 ==> after.status.attempt == gate.attempt)
  {
  }

  /** Fifteen minutes after a timestamped finish, a reconcile that is neither
      cancelled nor missing its Job or target always reaches a terminal phase. */
  lemma DeadlineForcesTerminal(c: Cluster, gate: Gate)
    requires c.outputValid && !Terminal(c.status.phase) && !c.cancelRequested && c.targetPresent
    requires c.job.Some? && c.job.value.belongs && c.job.value.finished && DeadlineExpired(c.job.value, c.now)
    ensures var plan := Decide(c, gate);
      plan.Patch? && Terminal(plan.status.phase) && plan.status.jobRef == Some(c.job.value.uid)
  {
  }

  /** A recorded Job is never replaced: gone, it fails the run; there, it is followed. */
  lemma RecordedJobNeverReplaced(c: Cluster, gate: Gate)
    requires c.status.jobRef.Some?
    ensures !Decide(c, gate).Create?
    ensures c.outputValid && !Terminal(c.status.phase) && c.job.None? && c.targetPresent && !c.cancelRequested
            ==> Decide(c, gate).Patch? && Decide(c, gate).status.phase.Failed?
  {
  }
}
