/** Whole lives of one IngestRun: reconciles run one at a time, commit their
    writes one at a time, and may crash before any of them, while Jobs, Pods, the
    target instance, the clock, the result collector and the Console move. */
module IngestRunHistory {
  import opened Base
  import opened IngestRun

  /** `created`: UIDs of the Jobs this run created.  `lost`: a created Job vanished
      before its name reached the status.  `basis`: what a success was based on. */
  datatype System = System(c: Cluster, pending: Plan, created: set<nat>, lost: bool, basis: Option<Evidence>)

  // ----- Steps

  predicate Init(s: System) {
    && s.c.status.phase.Unset? && s.c.status.jobRef.None? && s.c.status.completedAt.None?
    && s.c.job.None? && s.c.pods == [] && s.pending.Idle? && s.created == {} && !s.lost && s.basis.None?
  }

  ghost predicate Observe(s: System, s': System) {
    s.pending.Idle? && exists gate :: s' == s.(pending := Decide(s.c, gate))
  }

  /** One write of the pending plan.  A status patch only carries changed fields, so it
      never overwrites the collector's result. */
  function Commit(s: System): System {
    match s.pending
    case Idle => s
    case Patch(status, evidence) =>
      s.(c := s.c.(status := status.(result := s.c.status.result)), pending := Idle,
         basis := if Successful(status.phase) then evidence else s.basis)
    case DeleteThenPatch(status) =>
      s.(c := s.c.(job := if s.c.job.Some? then Some(s.c.job.value.(deleting := true)) else None),
         pending := Patch(status, None))
    case Create(total, attempt) =>
      if s.c.job.Some? then s.(pending := Idle)
      else
        var job := NewJob(s.c.nextUid);
        s.(c := s.c.(job := Some(job), nextUid := s.c.nextUid + 1), created := s.created + {job.uid},
           pending := Patch(SetPhase(s.c.status, Some(job), Queued, total, attempt, NotFinished, s.c.now), None))
  }

  /** An uninterrupted reconcile is two commits of its plan. */
  lemma UninterruptedReconcile(s: System, gate: Gate)
    requires s.pending == Decide(s.c, gate)
    ensures Commit(Commit(s)).c == Execute(s.c, s.pending)
  {
  }

  datatype Tick =
    | CancelRequested
    | Target(present: bool)
    | JobMoves(job: Job)
    | JobRemoved
    | ForeignJob(job: Job)
    | PodsMove(pods: seq<Pod>)
    | ResultCollected(result: Result)
    | TimePasses(now: int)

  ghost predicate OwnJob(s: System) {
    s.c.job.Some? && s.c.job.value.uid in s.created
  }

  /** Pods of a created Job carry its labels and stem from the live Job or from Pods already there. */
  ghost predicate PodsPossible(s: System, pods: seq<Pod>) {
    forall i | 0 <= i < |pods| && pods[i].owner.Some? ::
      && pods[i].owner.value < s.c.nextUid
      && (pods[i].owner.value in s.created ==>
            && pods[i].labelled
            && ((s.c.job.Some? && s.c.job.value.uid == pods[i].owner.value)
                || exists k | 0 <= k < |s.c.pods| :: s.c.pods[k].owner == pods[i].owner))
  }

  ghost predicate Possible(s: System, tick: Tick) {
    match tick
    case JobMoves(job) => s.c.job.Some? && job.uid == s.c.job.value.uid && job.belongs == s.c.job.value.belongs
    case ForeignJob(job) => s.c.job.None? && !job.belongs && job.uid == s.c.nextUid
    case PodsMove(pods) => PodsPossible(s, pods)
    case TimePasses(now) => s.c.now <= now
    case _ => true
  }

  ghost function Happen(s: System, tick: Tick): System {
    match tick
    case CancelRequested => s.(c := s.c.(cancelRequested := true))
    case Target(present) => s.(c := s.c.(targetPresent := present))
    case JobMoves(job) => s.(c := s.c.(job := Some(job)))
    case JobRemoved => s.(c := s.c.(job := None), lost := s.lost || (OwnJob(s) && s.c.status.jobRef.None?))
    case ForeignJob(job) => s.(c := s.c.(job := Some(job), nextUid := s.c.nextUid + 1))
    case PodsMove(pods) => s.(c := s.c.(pods := pods))
    case ResultCollected(result) => s.(c := s.c.(status := s.c.status.(result := result)))
    case TimePasses(now) => s.(c := s.c.(now := now))
  }

  ghost predicate Environment(s: System, s': System) {
    exists tick | Possible(s, tick) :: s' == Happen(s, tick)
  }

  ghost predicate Next(s: System, s': System) {
    Observe(s, s') || s' == Commit(s) || s' == s.(pending := Idle) || Environment(s, s')
  }

  ghost predicate IsRun(run: seq<System>) {
    && |run| > 0 && Init(run[0])
    && forall i, j | 0 <= i < j < |run| && j == i + 1 :: Next(run[i], run[j])
  }

  // ----- The invariant

  ghost predicate OnlyOneCreated(s: System) {
    forall u, v | u in s.created && v in s.created :: u == v
  }

  /** No created Job, and no Pod of the recorded one; unless two Jobs were created, no Pod of any created one. */
  ghost predicate Gone(s: System, jobRef: Option<nat>) {
    && !OwnJob(s)
    && (forall i | 0 <= i < |s.c.pods| && s.c.pods[i].owner.Some? ::
          && s.c.pods[i].owner != jobRef
          && (OnlyOneCreated(s) ==> s.c.pods[i].owner.value !in s.created))
  }

  ghost predicate Uids(s: System) {
    && (forall u | u in s.created :: u < s.c.nextUid)
    && (s.c.job.Some? ==> s.c.job.value.uid < s.c.nextUid && (s.c.job.value.belongs <==> s.c.job.value.uid in s.created))
    && (forall i | 0 <= i < |s.c.pods| && s.c.pods[i].owner.Some? :: s.c.pods[i].owner.value < s.c.nextUid)
    && (forall i | 0 <= i < |s.c.pods| && s.c.pods[i].owner.Some? && s.c.pods[i].owner.value in s.created :: s.c.pods[i].labelled)
  }

  /** Unless a Job was lost: at most one was created, and it is in sight. */
  ghost predicate OneJob(s: System) {
    && (s.c.status.jobRef.Some? ==> s.c.status.jobRef.value in s.created)
    && (!s.lost ==>
          && OnlyOneCreated(s)
          && (s.created != {} ==> OwnJob(s) || s.c.status.jobRef.Some?))
  }

  predicate StatusGood(c: Cluster, status: Status) {
    && (Terminal(status.phase) <==> status.completedAt.Some?)
    && (!c.outputValid ==> status.phase.Unset? || status.phase.Pending?)
    && (status.phase.Cancelled? ==> c.cancelRequested)
  }

  ghost predicate PendingGood(s: System) {
    match s.pending
    case Idle => true
    case Create(_, _) => !Terminal(s.c.status.phase) && s.c.outputValid && s.c.status.jobRef.None? && !OwnJob(s)
    case DeleteThenPatch(status) => PatchGood(s, status) && !status.phase.Cancelled? && !Successful(status.phase)
    case Patch(status, evidence) =>
      && PatchGood(s, status)
      && (status.phase.Cancelled? ==> Gone(s, status.jobRef))
      && (Successful(status.phase) ==> evidence.Some? && Convincing(evidence.value, status.phase))
  }

  ghost predicate PatchGood(s: System, status: Status) {
    && !Terminal(s.c.status.phase)
    && StatusGood(s.c, status)
    && (status.jobRef.Some? ==> status.jobRef.value in s.created)
    && (s.c.status.jobRef.Some? ==> status.jobRef.Some?)
    && s.c.status.lastEventSequence <= status.lastEventSequence
  }

  ghost predicate Inv(s: System) {
    && Uids(s) && OneJob(s)
    && StatusGood(s.c, s.c.status)
    && (s.c.status.phase.Cancelled? ==> Gone(s, s.c.status.jobRef))
    && (Successful(s.c.status.phase) ==> s.basis.Some? && Convincing(s.basis.value, s.c.status.phase))
    && PendingGood(s)
  }

  // ----- Preservation

  lemma CancelObservedGone(s: System)
    requires Uids(s) && OneJob(s) && s.c.job.None? && !PodsRemain(s.c.pods, s.c.status.jobRef)
    ensures Gone(s, s.c.status.jobRef)
  {
    var jobRef := s.c.status.jobRef;
    forall i | 0 <= i < |s.c.pods| && s.c.pods[i].owner.Some?
      ensures s.c.pods[i].owner != jobRef
      ensures OnlyOneCreated(s) ==> s.c.pods[i].owner.value !in s.created
    {
      assert !(s.c.pods[i].labelled && (jobRef.None? || s.c.pods[i].owner == jobRef));
    }
  }

  lemma {:induction false} FollowGood(s: System, job: Job)
    requires Inv(s) && s.c.job == Some(job) && job.belongs && s.c.outputValid && !Terminal(s.c.status.phase)
    ensures PendingGood(s.(pending := FollowJob(s.c, job)))
  {
  }

  lemma {:induction false} StopGood(s: System, job: Job, phase: Phase)
    requires Inv(s) && s.c.job == Some(job) && job.belongs && s.c.outputValid && !Terminal(s.c.status.phase)
    requires phase.Running? || phase.Failed?
    ensures PendingGood(s.(pending := StopJob(s.c, job, phase)))
  {
  }

  lemma {:induction false} QuietGood(s: System, phase: Phase)
    requires Inv(s) && !Terminal(s.c.status.phase) && !Successful(phase) && (phase.Pending? || s.c.outputValid)
    requires phase.Cancelled? ==> s.c.cancelRequested && Gone(s, s.c.status.jobRef)
    ensures PendingGood(s.(pending := Quiet(s.c, None, phase)))
  {
  }

  lemma {:induction false} DecideGood(s: System, gate: Gate)
    requires Inv(s) && s.pending.Idle?
    ensures PendingGood(s.(pending := Decide(s.c, gate)))
  {
    if !s.c.outputValid {
      QuietGood(s, Pending);
    } else if !Terminal(s.c.status.phase) {
      if s.c.job.Some? && s.c.job.value.belongs {
        FollowGood(s, s.c.job.value);
        StopGood(s, s.c.job.value, Running);
        StopGood(s, s.c.job.value, Failed);
      }
      if s.c.job.None? && s.c.cancelRequested && !PodsRemain(s.c.pods, s.c.status.jobRef) {
        CancelObservedGone(s);
        QuietGood(s, Cancelled);
      }
      QuietGood(s, Pending);
      QuietGood(s, Running);
      QuietGood(s, Failed);
    }
  }

  lemma {:induction false} PatchInv(s: System)
    requires Inv(s) && s.pending.Patch?
    ensures Inv(Commit(s))
  {
  }

  lemma {:induction false} CreateInv(s: System)
    requires Inv(s) && s.pending.Create? && s.c.job.None?
    ensures Inv(Commit(s))
  {
    var s' := Commit(s);
    assert OwnJob(s') && OneJob(s') && Uids(s');
    assert !Terminal(s'.pending.status.phase);
  }

  lemma {:induction false} CommitInv(s: System)
    requires Inv(s)
    ensures Inv(Commit(s)) && s.c.status.lastEventSequence <= Commit(s).c.status.lastEventSequence
  {
    if s.pending.Patch? {
      PatchInv(s);
    } else if s.pending.Create? && s.c.job.None? {
      CreateInv(s);
    }
  }

  lemma {:induction false} PodsMoveInv(s: System, pods: seq<Pod>)
    requires Inv(s) && PodsPossible(s, pods)
    ensures Inv(s.(c := s.c.(pods := pods)))
  {
  }

  predicate JobTick(tick: Tick) {
    tick.JobMoves? || tick.JobRemoved? || tick.ForeignJob?
  }

  lemma {:induction false} JobTickInv(s: System, tick: Tick)
    requires Inv(s) && Possible(s, tick) && JobTick(tick)
    ensures Inv(Happen(s, tick))
  {
  }

  lemma {:induction false} QuietTickInv(s: System, tick: Tick)
    requires Inv(s) && Possible(s, tick) && !JobTick(tick) && !tick.PodsMove?
    ensures Inv(Happen(s, tick))
  {
  }

  lemma {:induction false} EnvironmentInv(s: System, tick: Tick)
    requires Inv(s) && Possible(s, tick)
    ensures Inv(Happen(s, tick)) && s.c.status.lastEventSequence == Happen(s, tick).c.status.lastEventSequence
  {
    if tick.PodsMove? {
      PodsMoveInv(s, tick.pods);
    } else if JobTick(tick) {
      JobTickInv(s, tick);
    } else {
      QuietTickInv(s, tick);
    }
  }

  /** Same phase, job reference, timestamps, progress, created Jobs and evidence. */
  predicate SameOutcome(s: System, s': System) {
    s'.c.status == s.c.status.(result := s'.c.status.result) && s'.created == s.created && s'.basis == s.basis
  }

  lemma {:induction false} TerminalStep(s: System, s': System)
    requires Inv(s) && Terminal(s.c.status.phase) && Next(s, s')
    ensures SameOutcome(s, s')
  {
    assert s.pending.Idle?;
  }

  lemma {:induction false} NextInv(s: System, s': System)
    requires Inv(s) && Next(s, s')
    ensures Inv(s') && s.c.status.lastEventSequence <= s'.c.status.lastEventSequence
    ensures Terminal(s.c.status.phase) ==> SameOutcome(s, s')
  {
    if Terminal(s.c.status.phase) { TerminalStep(s, s'); }
    if Observe(s, s') {
      var gate :| s' == s.(pending := Decide(s.c, gate));
      DecideGood(s, gate);
    } else if s' == Commit(s) {
      CommitInv(s);
    } else if Environment(s, s') {
      var tick :| Possible(s, tick) && s' == Happen(s, tick);
      EnvironmentInv(s, tick);
    }
  }

  lemma {:induction false} RunInv(run: seq<System>, i: nat)
    requires IsRun(run) && i < |run|
    ensures Inv(run[i])
    ensures i > 0 ==> run[i - 1].c.status.lastEventSequence <= run[i].c.status.lastEventSequence
    ensures i > 0 && Terminal(run[i - 1].c.status.phase) ==> SameOutcome(run[i - 1], run[i])
  {
    if i > 0 {
      RunInv(run, i - 1);
      NextInv(run[i - 1], run[i]);
    }
  }

  // ----- At most one Job

  /** At step k a Job the run created disappears while the status does not name it yet. */
  ghost predicate VanishesUnrecorded(run: seq<System>, k: int) {
    0 <= k < |run| - 1 && OwnJob(run[k]) && run[k].c.status.jobRef.None? && run[k + 1].c.job.None?
  }

  lemma {:induction false} LostExplained(run: seq<System>, i: nat)
    requires IsRun(run) && i < |run| && run[i].lost
    ensures exists k | 0 <= k < i :: VanishesUnrecorded(run, k)
  {
    if run[i - 1].lost {
      LostExplained(run, i - 1);
    } else {
      assert Next(run[i - 1], run[i]);
      assert VanishesUnrecorded(run, i - 1);
    }
  }

  /** Two Jobs are only ever created if the first one vanished before its name
      reached the status; crashes and repeated reconciles never suffice. */
  lemma {:induction false} AtMostOneJob(run: seq<System>, i: nat, u: nat, v: nat)
    requires IsRun(run) && i < |run| && u in run[i].created && v in run[i].created && u != v
    ensures exists k | 0 <= k < i :: VanishesUnrecorded(run, k)
  {
    RunInv(run, i);
    LostExplained(run, i);
  }

  // ----- Terminal phases

  lemma {:induction false} OutcomeKept(run: seq<System>, j: nat)
    requires IsRun(run) && 0 < j < |run| && Terminal(run[j - 1].c.status.phase)
    ensures SameOutcome(run[j - 1], run[j])
  {
    RunInv(run, j);
  }

  /** A terminal phase is final: nothing about the outcome changes, and no Job is created any more. */
  lemma {:induction false} TerminalAbsorbing(run: seq<System>, i: nat, j: nat)
    requires IsRun(run) && i <= j < |run| && Terminal(run[i].c.status.phase)
    ensures SameOutcome(run[i], run[j])
  {
    if i < j {
      TerminalAbsorbing(run, i, j - 1);
      OutcomeKept(run, j);
    }
  }

  /** The recorded event sequence never falls, whatever streams are read. */
  lemma {:induction false} SequenceNeverFalls(run: seq<System>, i: nat, j: nat)
    requires IsRun(run) && i <= j < |run|
    ensures run[i].c.status.lastEventSequence <= run[j].c.status.lastEventSequence
  {
    if i < j {
      SequenceNeverFalls(run, i, j - 1);
      RunInv(run, j);
    }
  }

  /** CompletedAt is set exactly in terminal phases, and a run whose output intent is invalid stays Pending. */
  lemma {:induction false} CompletedExactlyWhenTerminal(run: seq<System>, i: nat)
    requires IsRun(run) && i < |run|
    ensures Terminal(run[i].c.status.phase) <==> run[i].c.status.completedAt.Some?
    ensures !run[i].c.outputValid ==> run[i].c.status.phase.Unset? || run[i].c.status.phase.Pending?
  {
    RunInv(run, i);
  }

  /** From the moment a run is Cancelled, no Job it created and no Pod of the recorded Job
      exists; unless it created two Jobs, no Pod of any created Job does. */
  lemma {:induction false} CancelledMeansGone(run: seq<System>, i: nat, j: nat)
    requires IsRun(run) && i <= j < |run| && run[i].c.status.phase.Cancelled?
    ensures Gone(run[j], run[i].c.status.jobRef) && run[j].c.cancelRequested
    ensures run[j].created == run[i].created
  {
    TerminalAbsorbing(run, i, j);
    RunInv(run, j);
  }

  // ----- No unattended Job

  /** The Job this run created has finished or is being deleted, if it still exists. */
  ghost predicate JobDone(s: System) {
    OwnJob(s) ==> s.c.job.value.finished || s.c.job.value.deleting
  }

  /** A finished Job stays finished and a Job being deleted stays so. */
  predicate Steady(s: System, s': System) {
    s.c.job.Some? && s'.c.job.Some? && s.c.job.value.uid == s'.c.job.value.uid ==>
      && (s.c.job.value.finished ==> s'.c.job.value.finished)
      && (s.c.job.value.deleting ==> s'.c.job.value.deleting)
  }

  ghost predicate Attended(s: System) {
    && (Terminal(s.c.status.phase) ==> JobDone(s))
    && (s.pending.Patch? && Terminal(s.pending.status.phase) ==> JobDone(s))
  }

  lemma {:induction false} DecideAttends(s: System, gate: Gate)
    requires Inv(s) && s.pending.Idle? && Attended(s)
    ensures Attended(s.(pending := Decide(s.c, gate)))
  {
  }

  lemma {:induction false} EnvironmentAttends(s: System, tick: Tick)
    requires Inv(s) && Attended(s) && Possible(s, tick) && Steady(s, Happen(s, tick))
    ensures Attended(Happen(s, tick))
  {
  }

  lemma {:induction false} CommitAttends(s: System)
    requires Inv(s) && Attended(s)
    ensures Attended(Commit(s))
  {
  }

  lemma {:induction false} StepAttends(s: System, s': System)
    requires Inv(s) && Next(s, s') && Attended(s) && Steady(s, s')
    ensures Attended(s')
  {
    if Observe(s, s') {
      var gate :| s' == s.(pending := Decide(s.c, gate));
      DecideAttends(s, gate);
    } else if s' == Commit(s) {
      CommitAttends(s);
    } else if Environment(s, s') {
      var tick :| Possible(s, tick) && s' == Happen(s, tick);
      EnvironmentAttends(s, tick);
    }
  }

  /** A run in a terminal phase leaves no Job of its own that is neither finished nor being
      deleted: a cancelled run or one whose target is gone stopped it first. */
  lemma {:induction false} TerminalLeavesNoLiveJob(run: seq<System>, i: nat)
    requires IsRun(run) && i < |run| && forall k, l | 0 <= k < l <= i && l == k + 1 :: Steady(run[k], run[l])
    ensures Attended(run[i])
  {
    if i > 0 {
      TerminalLeavesNoLiveJob(run, i - 1);
      RunInv(run, i - 1);
      assert Steady(run[i - 1], run[i]);
      StepAttends(run[i - 1], run[i]);
    }
  }

  // ----- Success

  /** The evidence was read from one earlier state of the run. */
  ghost predicate ReadAt(run: seq<System>, i: nat, e: Evidence) {
    exists k | 0 <= k <= i < |run| :: Shows(run[k].c, e)
  }

  predicate Shows(c: Cluster, e: Evidence) {
    c.job == Some(e.job) && c.pods == e.pods && c.status.result == e.result
  }

  /** Evidence enters a plan when it is made, and the basis of success when that plan is committed. */
  lemma {:induction false} EvidenceStep(s: System, s': System)
    requires Next(s, s')
    ensures s'.pending.Patch? && s'.pending.evidence.Some? ==>
      s'.pending == s.pending || Shows(s.c, s'.pending.evidence.value)
    ensures s'.basis == s.basis || (s.pending.Patch? && s'.basis == s.pending.evidence)
  {
  }

  lemma {:induction false} EvidenceRead(run: seq<System>, i: nat)
    requires IsRun(run) && i < |run|
    ensures run[i].pending.Patch? && run[i].pending.evidence.Some? ==> ReadAt(run, i, run[i].pending.evidence.value)
    ensures run[i].basis.Some? ==> ReadAt(run, i, run[i].basis.value)
  {
    if i > 0 {
      EvidenceRead(run, i - 1);
      assert Next(run[i - 1], run[i]);
      EvidenceStep(run[i - 1], run[i]);
      forall e | ReadAt(run, i - 1, e) || Shows(run[i - 1].c, e) ensures ReadAt(run, i, e) {
        if Shows(run[i - 1].c, e) { assert ReadAt(run, i - 1, e); }
      }
    }
  }

  /** A run that is Succeeded or PartiallySucceeded got there by reading, in one earlier
      state, its finished Job, in the log of that Job's last Pod a complete valid stream
      whose exit code is the container's, and no result that still lacked digest verification. */
  lemma {:induction false} SuccessIsConvincing(run: seq<System>, i: nat)
    requires IsRun(run) && i < |run| && Successful(run[i].c.status.phase)
    ensures run[i].basis.Some? && Convincing(run[i].basis.value, run[i].c.status.phase)
    ensures exists k | 0 <= k <= i :: Shows(run[k].c, run[i].basis.value)
  {
    RunInv(run, i);
    EvidenceRead(run, i);
  }

  // ----- The condition of AtMostOneJob cannot be dropped

  const NO_RESULT := Result("", "", 0, "", false)
  const FRESH_STATUS := Status(Unset, None, 0, None, None, "", 0, Progress(0, 0, 0, 0, 0), NO_RESULT)

  function Last(run: seq<System>): System
    requires run != []
  {
    run[|run| - 1]
  }

  lemma Extend(run: seq<System>, next: System) returns (longer: seq<System>)
    requires IsRun(run) && Next(Last(run), next)
    ensures IsRun(longer) && Last(longer) == next && run <= longer
  {
    longer := run + [next];
    forall i, j | 0 <= i < j < |longer| && j == i + 1 ensures Next(longer[i], longer[j]) {
      assert longer[i] == run[i];
      if j < |run| { assert longer[j] == run[j] && Next(run[i], run[j]); }
    }
  }

  /** A crash between Create and the status patch, followed by removal of the Job while a Pod
      of it remains, lets a second Job be created. */
  lemma {:induction false} SecondJobPossible() returns (run: seq<System>)
    ensures IsRun(run) && Last(run).created == {0, 1} && !Terminal(Last(run).c.status.phase)
    ensures Last(run).pending.Patch? && Last(run).c.job == Some(NewJob(1)) && !Last(run).c.cancelRequested
    ensures Last(run).c.pods == [Pod("", Some(0), true, [], Unreadable)] && Last(run).c.outputValid
    ensures Last(run).pending.status.jobRef == Some(1) && Last(run).pending.status.phase.Queued?
    ensures Last(run).c.nextUid == 2
  {
    var c0 := Cluster(true, false, FRESH_STATUS, None, [], true, 0, 0);
    run := [System(c0, Idle, {}, false, None)];
    run := Extend(run, Last(run).(pending := Decide(Last(run).c, Admit(1, 1))));
    run := Extend(run, Commit(Last(run)));
    run := Extend(run, Happen(Last(run), PodsMove([Pod("", Some(0), true, [], Unreadable)])));
    run := Extend(run, Last(run).(pending := Idle));
    run := Extend(run, Happen(Last(run), JobRemoved));
    run := Extend(run, Last(run).(pending := Decide(Last(run).c, Admit(1, 1))));
    run := Extend(run, Commit(Last(run)));
    assert Last(run).created == {0, 1};
  }

  /** With two Jobs created, a run can be Cancelled while a Pod of the first is still there. */
  lemma {:induction false} CancelledBesideLostPod() returns (run: seq<System>)
    ensures IsRun(run) && Last(run).c.status.phase.Cancelled?
    ensures exists i | 0 <= i < |Last(run).c.pods| :: Last(run).c.pods[i].owner == Some(0) && 0 in Last(run).created
  {
    run := SecondJobPossible();
    run := Extend(run, Commit(Last(run)));
    run := Extend(run, Happen(Last(run), CancelRequested));
    run := Extend(run, Happen(Last(run), JobRemoved));
    run := Extend(run, Last(run).(pending := Decide(Last(run).c, Admit(1, 1))));
    run := Extend(run, Commit(Last(run)));
    assert Last(run).c.pods[0].owner == Some(0);
  }

  // ----- What stays reachable

  /** A cancellation can always be completed: from every state of every run whose output
      intent is valid and whose phase is not terminal, some continuation is Cancelled. */
  lemma {:induction false} CancellationReachable(run: seq<System>) returns (longer: seq<System>)
    requires IsRun(run) && Last(run).c.outputValid && !Terminal(Last(run).c.status.phase)
    ensures IsRun(longer) && run <= longer && Last(longer).c.status.phase.Cancelled?
  {
    longer := Extend(run, Last(run).(pending := Idle));
    longer := Extend(longer, Happen(Last(longer), CancelRequested));
    longer := Extend(longer, Happen(Last(longer), JobRemoved));
    longer := Extend(longer, Happen(Last(longer), PodsMove([])));
    longer := Extend(longer, Last(longer).(pending := Decide(Last(longer).c, Refuse)));
    longer := Extend(longer, Commit(Last(longer)));
  }

  /** A followed run with convincing evidence succeeds in the next uninterrupted reconcile. */
  lemma {:induction false} EvidenceIsActedOn(run: seq<System>, phase: Phase) returns (longer: seq<System>)
    requires IsRun(run) && Followed(Last(run).c) && Successful(phase)
    requires Convincing(Evidence(Last(run).c.job.value, Last(run).c.pods, Last(run).c.status.result), phase)
    ensures IsRun(longer) && run <= longer && Last(longer).c.status.phase == phase
  {
    EvidenceDecides(Last(run).c, Refuse, phase);
    longer := Extend(run, Last(run).(pending := Idle));
    longer := Extend(longer, Last(longer).(pending := Decide(Last(longer).c, Refuse)));
    longer := Extend(longer, Commit(Last(longer)));
  }

  /** From a live run that either follows its own Job or has not recorded one, a Job of its own can stand. */
  lemma {:induction false} JobStands(run: seq<System>) returns (longer: seq<System>)
    requires IsRun(run) && Last(run).c.outputValid && !Last(run).c.cancelRequested && !Terminal(Last(run).c.status.phase)
    requires (Last(run).c.job.Some? && Last(run).c.job.value.belongs) || Last(run).c.status.jobRef.None?
    ensures IsRun(longer) && run <= longer && Last(longer).pending.Idle? && Followed(Last(longer).c)
  {
    longer := Extend(run, Last(run).(pending := Idle));
    longer := Extend(longer, Happen(Last(longer), Target(true)));
    if !(Last(longer).c.job.Some? && Last(longer).c.job.value.belongs) {
      longer := Extend(longer, Happen(Last(longer), JobRemoved));
      longer := Extend(longer, Last(longer).(pending := Decide(Last(longer).c, Admit(1, 1))));
      longer := Extend(longer, Commit(Last(longer)));
      longer := Extend(longer, Commit(Last(longer)));
    }
  }

  const GOOD_LOG := Read(Reduced("", 1, Some(Finish(RunSucceeded, 0, 0, 0, 0, 0)), []))

  function GoodPod(job: nat): Pod {
    Pod("", Some(job), true, [ContainerStatus(TAMSIN, Some((0, 0)))], GOOD_LOG)
  }

  lemma GoodPodConvinces(job: Job)
    requires job.belongs && job.finished
    ensures Convincing(Evidence(job, [GoodPod(job.uid)], NO_RESULT), Succeeded)
  {
    var pod, t := GoodPod(job.uid), Termination("", 0, 0, GOOD_LOG);
    assert PodTerminations(pod, pod.containers) == [t];
    assert Terminations([pod], job.uid) == [t];
  }

  /** The live Job can finish with a good Pod and without a recorded result. */
  lemma {:induction false} JobFinishes(run: seq<System>) returns (longer: seq<System>)
    requires IsRun(run) && Last(run).c.job.Some?
    ensures IsRun(longer) && run <= longer
    ensures var c, job := Last(run).c, Last(run).c.job.value;
      Last(longer).c == c.(job := Some(job.(finished := true)), pods := [GoodPod(job.uid)], status := c.status.(result := NO_RESULT))
  {
    var job := Last(run).c.job.value.(finished := true);
    assert job.uid < Last(run).c.nextUid by { RunInv(run, |run| - 1); }
    longer := Extend(run, Happen(Last(run), JobMoves(job)));
    longer := Extend(longer, Happen(Last(longer), PodsMove([GoodPod(job.uid)])));
    longer := Extend(longer, Happen(Last(longer), ResultCollected(NO_RESULT)));
  }

  /** From every state of every run that is uncancelled, not terminal and valid, and either has its
      own Job or recorded none, some continuation succeeds. */
  lemma {:induction false} SuccessReachable(run: seq<System>) returns (longer: seq<System>)
    requires IsRun(run) && Last(run).c.outputValid && !Last(run).c.cancelRequested && !Terminal(Last(run).c.status.phase)
    requires (Last(run).c.job.Some? && Last(run).c.job.value.belongs) || Last(run).c.status.jobRef.None?
    ensures IsRun(longer) && run <= longer && Last(longer).c.status.phase.Succeeded?
  {
    longer := JobStands(run);
    longer := JobFinishes(longer);
    GoodPodConvinces(Last(longer).c.job.value);
    longer := EvidenceIsActedOn(longer, Succeeded);
  }
}
