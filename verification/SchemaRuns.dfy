/** Whole runs of the schema controller against a changing cluster.  A reconcile
    observes the cluster, then commits its writes one at a time; the operator may
    crash, and the cluster may move, before any of them. */
module SchemaRuns {
  import opened Base
  import opened SchemaMigration

  // ----- What has been written so far

  datatype Event =
    | Launched(uid: nat, template: Template)
    | Recorded(version: string, job: Job, target: Target, spec: Spec, fixtures: bool)
    | FailureNoted(failedVersion: string, failedGeneration: nat)
    | RetryAccepted(value: string)

  datatype History = Start | After(past: History, last: Event)

  datatype System = System(c: Cluster, pending: Plan, h: History)

  // ----- Steps

  function PutState(s: System, put: StateMap, e: Event): System {
    System(s.c.(state := Some(put)), Nothing, After(s.h, e))
  }

  /** One write of the pending plan reaches the API server. */
  ghost predicate Commit(s: System, s': System) {
    match s.pending
    case Nothing => false
    case DeleteObsolete(names) =>
      exists name | name in names ::
        s' == s.(c := DeleteForeground(s.c, name), pending := DeleteObsolete(names - {name}))
    case AcceptRetry(Some(name), value, put) =>
      s' == s.(c := DeleteBackground(s.c, name), pending := AcceptRetry(None, value, put))
    case AcceptRetry(None, value, put) => s' == PutState(s, put, RetryAccepted(value))
    case DeleteStale(name) => s' == s.(c := DeleteForeground(s.c, name), pending := Nothing)
    case Record(put, job, target, spec, fixtures) =>
      s' == PutState(s, put, Recorded(put.appliedVersion, job, target, spec, fixtures))
    case NoteFailure(put, version, generation) => s' == PutState(s, put, FailureNoted(version, generation))
    case Launch(name, template) =>
      s' == System(CreateJob(s.c, name, template), Nothing,
                   if name in s.c.jobs then s.h else After(s.h, Launched(s.c.nextUid, template)))
  }

  ghost predicate Observe(s: System, s': System) {
    s.pending == Nothing && s' == s.(pending := Decide(s.c))
  }

  ghost predicate Crash(s: System, s': System) {
    s' == s.(pending := Nothing)
  }

  /** Everything the controller does not do itself: the Tamoss or the selected
      release changes, Jobs finish or disappear (garbage collection, pruning, a
      user), others create Jobs, Pods come and go.  A Pod is only created for a
      Job that exists. */
  datatype Tick =
    | Reconfigure(target: Target, spec: Spec)
    | JobFinishes(name: string, status: JobStatus)
    | JobRemoved(name: string)
    | ForeignJob(name: string, template: Template, status: JobStatus)
    | PodStarts(pod: nat, job: string)
    | BarePod(pod: nat)
    | PodGone(pod: nat)

  predicate Possible(c: Cluster, tick: Tick) {
    match tick
    case Reconfigure(target, spec) => ValidTarget(target) && c.spec.generation <= spec.generation
    case JobFinishes(name, _) => name in c.jobs && c.jobs[name].status.Active?
    case JobRemoved(name) => name in c.jobs
    case ForeignJob(name, _, _) => name !in c.jobs
    case PodStarts(pod, job) => pod !in c.pods && job in c.jobs
    case BarePod(pod) => pod !in c.pods
    case PodGone(pod) => pod in c.pods
  }

  function Happen(c: Cluster, tick: Tick): Cluster
    requires Possible(c, tick)
  {
    match tick
    case Reconfigure(target, spec) => c.(target := target, spec := spec)
    case JobFinishes(name, status) => c.(jobs := c.jobs[name := c.jobs[name].(status := status)])
    case JobRemoved(name) => c.(jobs := c.jobs - {name})
    case ForeignJob(name, template, status) =>
      c.(jobs := c.jobs[name := Job(c.nextUid, false, template, false, status)], nextUid := c.nextUid + 1)
    case PodStarts(pod, job) => c.(pods := c.pods[pod := Pod(Some(c.jobs[job].uid))])
    case BarePod(pod) => c.(pods := c.pods[pod := Pod(None)])
    case PodGone(pod) => c.(pods := c.pods - {pod})
  }

  ghost predicate Environment(s: System, s': System) {
    exists tick | Possible(s.c, tick) :: s' == s.(c := Happen(s.c, tick))
  }

  ghost predicate Next(s: System, s': System) {
    Observe(s, s') || Commit(s, s') || Crash(s, s') || Environment(s, s')
  }

  ghost predicate PodOwnersKnown(c: Cluster) {
    forall pod | pod in c.pods && c.pods[pod].controllerJob.Some? :: c.pods[pod].controllerJob.value < c.nextUid
  }

  ghost predicate Init(s: System) {
    && ValidTarget(s.c.target)
    && s.c.state.None? && s.pending == Nothing && s.h == Start
    && (forall name | name in s.c.jobs :: !s.c.jobs[name].owned && s.c.jobs[name].uid < s.c.nextUid)
    && PodOwnersKnown(s.c)
  }

  ghost predicate IsRun(run: seq<System>) {
    && |run| > 0 && Init(run[0])
    && forall i, j | 0 <= i < j < |run| && j == i + 1 :: Next(run[i], run[j])
  }

  // ----- Readings of the history that never look at the stored state

  predicate WasLaunched(h: History, uid: nat) {
    h.After? && ((h.last.Launched? && h.last.uid == uid) || WasLaunched(h.past, uid))
  }

  function LastLaunch(h: History): Option<nat> {
    if h.Start? then None else if h.last.Launched? then Some(h.last.uid) else LastLaunch(h.past)
  }

  function LastRecord(h: History): Option<Event> {
    if h.Start? then None else if h.last.Recorded? then Some(h.last) else LastRecord(h.past)
  }

  predicate RecordedJob(h: History, job: Job) {
    h.After? && ((h.last.Recorded? && h.last.job == job) || RecordedJob(h.past, job))
  }

  function FirstRecord(h: History): Option<Event> {
    if h.Start? then None
    else if FirstRecord(h.past).Some? then FirstRecord(h.past)
    else if h.last.Recorded? then Some(h.last) else None
  }

  /** Some Job whose success was recorded had loaded fixtures. */
  predicate FixturesRan(h: History) {
    h.After? && ((h.last.Recorded? && RunsFixtures(h.last.job.template)) || FixturesRan(h.past))
  }

  /** The retry value consumed last. */
  function LastRetry(h: History): string {
    if h.Start? then "" else if h.last.RetryAccepted? then h.last.value else LastRetry(h.past)
  }

  /** The unbroken run of failures, of one version and generation, that ends the history. */
  datatype Streak = Streak(length: nat, version: string, generation: nat)

  function FailureStreak(h: History): Streak {
    if h.Start? then Streak(0, "", 0)
    else
      match h.last
      case Launched(_, _) => FailureStreak(h.past)
      case FailureNoted(v, g) =>
        var before := FailureStreak(h.past);
        if before.length > 0 && before.version == v && before.generation == g
        then before.(length := before.length + 1) else Streak(1, v, g)
      case Recorded(_, _, _, _, _) => Streak(0, "", 0)
      case RetryAccepted(_) => Streak(0, "", 0)
  }

  // ----- What every event was allowed by

  /** A record is justified by a finished Job that matched the render it was checked against. */
  predicate Justified(e: Event)
    requires e.Recorded?
  {
    && e.version == e.target.version && TrimSpace(e.version) != ""
    && e.job.status.Succeeded?
    && SameRender(e.job.template, Render(e.target, e.spec, e.fixtures))
  }

  /** The new target accepts being migrated to from what is recorded. */
  predicate Upgrades(recorded: string, target: Target) {
    recorded != "" ==> Supports(target, recorded) && recorded != target.version
  }

  function RecordedVersion(h: History): string {
    if h.Start? then "" else if h.last.Recorded? then h.last.version else RecordedVersion(h.past)
  }

  predicate Allowed(past: History, e: Event) {
    match e
    case Launched(uid, template) =>
      !WasLaunched(past, uid) && (RunsFixtures(template) ==> LastRecord(past).None?)
    case Recorded(_, job, target, _, _) =>
      && Justified(e) && Upgrades(RecordedVersion(past), target)
      && (RunsFixtures(job.template) ==> LastRecord(past).None?)
    case FailureNoted(v, g) =>
      var before := FailureStreak(past);
      before.length == 3 ==> before.version != v || before.generation != g
    case RetryAccepted(value) =>
      value != "" && value != LastRetry(past) && FailureStreak(past).length == 3
  }

  predicate GoodHistory(h: History) {
    h.After? ==> GoodHistory(h.past) && Allowed(h.past, h.last)
  }

  // ----- The invariant

  /** A Pod of a Job this controller launched. */
  predicate MigrationPod(c: Cluster, h: History, pod: nat) {
    pod in c.pods && c.pods[pod].controllerJob.Some? && WasLaunched(h, c.pods[pod].controllerJob.value)
  }

  ghost predicate UidsKnown(c: Cluster, h: History) {
    && PodOwnersKnown(c)
    && (forall n | n in c.jobs :: c.jobs[n].uid < c.nextUid)
    && (forall uid: nat | WasLaunched(h, uid) :: uid < c.nextUid)
  }

  /** At most one owned Job, and it and every migration Pod stem from the latest launch. */
  ghost predicate Exclusive(c: Cluster, h: History) {
    && (forall n | n in c.jobs :: c.jobs[n].owned <==> WasLaunched(h, c.jobs[n].uid))
    && (forall n | n in c.jobs && c.jobs[n].owned :: LastLaunch(h) == Some(c.jobs[n].uid))
    && (forall n, m | n in c.jobs && m in c.jobs && c.jobs[n].owned && c.jobs[m].owned :: n == m)
    && (forall p: nat | MigrationPod(c, h, p) :: LastLaunch(h) == c.pods[p].controllerJob)
  }

  /** Once anything is recorded, an owned Job with fixtures is one that was recorded. */
  ghost predicate FixturesAccounted(c: Cluster, h: History) {
    LastRecord(h).Some? ==> forall n | n in c.jobs && c.jobs[n].owned && RunsFixtures(c.jobs[n].template) :: FixturesRan(h)
  }

  ghost predicate Vacant(c: Cluster, h: History) {
    && (forall n | n in c.jobs :: !c.jobs[n].owned)
    && (forall p: nat :: !MigrationPod(c, h, p))
  }

  ghost predicate AppliedMatches(state: StateMap, h: History) {
    && (state.fixturesApplied <==> FixturesRan(h)) && state.appliedVersion == RecordedVersion(h)
    && match LastRecord(h)
       case None => state.appliedVersion == ""
       case Some(e) => e.Recorded? && TrimSpace(e.version) != ""
                       && state.appliedVersion == e.version && state.appliedJob == Some(e.job.uid)
  }

  ghost predicate FailuresMatch(state: StateMap, h: History) {
    var streak := FailureStreak(h);
    && streak.length <= 3
    && match state.failureCount
       case None => streak.length == 0
       case Some(count) => count == streak.length > 0 && state.failedVersion == streak.version
                           && state.failedGeneration == Some(streak.generation)
  }

  ghost predicate StateMatches(state: StateMap, h: History) {
    AppliedMatches(state, h) && FailuresMatch(state, h) && state.retryDone == LastRetry(h)
  }

  /** What a plan made earlier still guarantees when it is committed now. */
  ghost predicate PlanGood(c: Cluster, h: History, pending: Plan) {
    var now := StateOf(c);
    match pending
    case Nothing => true
    case DeleteObsolete(_) => true
    case DeleteStale(_) => true
    case AcceptRetry(_, value, put) =>
      && value != "" && now.retryDone != value && now.failureCount == Some(3)
      && put == now.(failureCount := None, failedGeneration := None, failedVersion := "", retryDone := value)
    case Record(put, job, target, spec, fixtures) =>
      && put == EMPTY_STATE.(appliedVersion := target.version, appliedJob := Some(job.uid),
                             fixturesApplied := fixtures || now.fixturesApplied, retryDone := now.retryDone)
      && Justified(Recorded(put.appliedVersion, job, target, spec, fixtures))
      && Upgrades(now.appliedVersion, target)
      && (fixtures ==> LastRecord(h).None?)
      && (forall n | n in c.jobs && c.jobs[n].owned :: c.jobs[n].template == job.template)
    case NoteFailure(put, version, generation) =>
      var again := now.failureCount.Some? && now.failedVersion == version && now.failedGeneration == Some(generation);
      && (again ==> now.failureCount.value < 3)
      && put == now.(failureCount := Some(if again then now.failureCount.value + 1 else 1),
                     failedGeneration := Some(generation), failedVersion := version)
    case Launch(_, template) =>
      Vacant(c, h) && (RunsFixtures(template) ==> LastRecord(h).None?)
  }

  ghost predicate Inv(s: System) {
    && ValidTarget(s.c.target)
    && UidsKnown(s.c, s.h) && Exclusive(s.c, s.h) && FixturesAccounted(s.c, s.h)
    && GoodHistory(s.h) && StateMatches(StateOf(s.c), s.h)
    && PlanGood(s.c, s.h, s.pending)
  }

  // ----- Preservation

  lemma {:induction false} LaunchGood(c: Cluster, h: History)
    requires Exclusive(c, h) && AppliedMatches(StateOf(c), h) && Decide(c).Launch?
    ensures PlanGood(c, h, Decide(c))
  {
    forall n | n in c.jobs ensures !c.jobs[n].owned {
      assert n !in ObsoleteJobs(c.jobs, JobName(c.target));
    }
    RenderDeterminesFixtures(c.target, c.spec, IncludeFixtures(c), Decide(c).template);
  }

  lemma {:induction false} JobPlanGood(c: Cluster, h: History, name: string, desired: Template)
    requires ValidTarget(c.target) && !Settled(c) && StateMatches(StateOf(c), h) && name in c.jobs
    requires desired == Render(c.target, c.spec, IncludeFixtures(c))
    requires forall n | n in c.jobs && c.jobs[n].owned :: n == name
    ensures PlanGood(c, h, DecideForJob(c, name, desired))
  {
  }

  lemma {:induction false} DecideGood(c: Cluster, h: History)
    requires ValidTarget(c.target) && Exclusive(c, h) && StateMatches(StateOf(c), h)
    ensures PlanGood(c, h, Decide(c))
  {
    var name := JobName(c.target);
    if Decide(c).Launch? {
      LaunchGood(c, h);
    } else if name in c.jobs && !Settled(c) && ObsoleteJobs(c.jobs, name) == {} {
      forall n | n in c.jobs && c.jobs[n].owned ensures n == name {
        assert n !in ObsoleteJobs(c.jobs, name);
      }
      JobPlanGood(c, h, name, Render(c.target, c.spec, IncludeFixtures(c)));
    }
  }

  lemma {:induction false} EnvironmentExclusive(c: Cluster, h: History, tick: Tick)
    requires UidsKnown(c, h) && Exclusive(c, h) && Possible(c, tick)
    ensures Exclusive(Happen(c, tick), h)
  {
    var c' := Happen(c, tick);
    forall p: nat | MigrationPod(c', h, p) ensures LastLaunch(h) == c'.pods[p].controllerJob {
      if tick.PodStarts? && p == tick.pod {
        assert c.jobs[tick.job].owned;
      } else {
        assert MigrationPod(c, h, p);
      }
    }
  }

  lemma {:induction false} EnvironmentVacant(c: Cluster, h: History, tick: Tick)
    requires UidsKnown(c, h) && Exclusive(c, h) && Possible(c, tick) && Vacant(c, h)
    ensures Vacant(Happen(c, tick), h)
  {
    forall p: nat ensures !MigrationPod(Happen(c, tick), h, p) {
      assert !MigrationPod(c, h, p);
    }
  }

  lemma {:induction false} EnvironmentPlan(c: Cluster, h: History, pending: Plan, tick: Tick)
    requires UidsKnown(c, h) && Exclusive(c, h) && Possible(c, tick) && PlanGood(c, h, pending)
    ensures PlanGood(Happen(c, tick), h, pending)
  {
    if pending.Launch? { EnvironmentVacant(c, h, tick); }
    assert StateOf(Happen(c, tick)) == StateOf(c);
  }

  lemma {:induction false} EnvironmentInv(s: System, tick: Tick)
    requires Inv(s) && Possible(s.c, tick)
    ensures Inv(s.(c := Happen(s.c, tick)))
  {
    var c' := Happen(s.c, tick);
    EnvironmentExclusive(s.c, s.h, tick);
    EnvironmentPlan(s.c, s.h, s.pending, tick);
    assert StateOf(c') == StateOf(s.c);
    assert UidsKnown(c', s.h);
  }

  /** Writing the state ConfigMap moves no Job and no Pod. */
  lemma {:induction false} PutStateKeepsPlaces(c: Cluster, h: History, put: StateMap, e: Event)
    requires UidsKnown(c, h) && Exclusive(c, h) && !e.Launched?
    ensures UidsKnown(c.(state := Some(put)), After(h, e)) && Exclusive(c.(state := Some(put)), After(h, e))
  {
    var c', h' := c.(state := Some(put)), After(h, e);
    forall uid: nat ensures WasLaunched(h', uid) <==> WasLaunched(h, uid) {}
    forall p: nat ensures MigrationPod(c', h', p) <==> MigrationPod(c, h, p) {}
  }

  lemma {:induction false} PutStateInv(s: System, put: StateMap, e: Event)
    requires Inv(s) && !e.Launched? && Allowed(s.h, e) && StateMatches(put, After(s.h, e))
    requires FixturesAccounted(s.c, After(s.h, e))
    ensures Inv(PutState(s, put, e))
  {
    PutStateKeepsPlaces(s.c, s.h, put, e);
  }

  lemma {:induction false} RecordInv(s: System)
    requires Inv(s) && s.pending.Record?
    ensures var p := s.pending;
            Inv(PutState(s, p.put, Recorded(p.put.appliedVersion, p.job, p.target, p.spec, p.fixtures)))
  {
    var p := s.pending;
    RenderDeterminesFixtures(p.target, p.spec, p.fixtures, p.job.template);
    PutStateInv(s, p.put, Recorded(p.put.appliedVersion, p.job, p.target, p.spec, p.fixtures));
  }

  lemma {:induction false} LaunchExclusive(c: Cluster, h: History, name: string, template: Template)
    requires UidsKnown(c, h) && Vacant(c, h) && name !in c.jobs
    requires forall n | n in c.jobs :: c.jobs[n].owned <==> WasLaunched(h, c.jobs[n].uid)
    ensures var h' := After(h, Launched(c.nextUid, template));
            UidsKnown(CreateJob(c, name, template), h') && Exclusive(CreateJob(c, name, template), h')
  {
    var h' := After(h, Launched(c.nextUid, template));
    var c' := CreateJob(c, name, template);
    forall uid: nat ensures WasLaunched(h', uid) <==> WasLaunched(h, uid) || uid == c.nextUid {}
    forall p: nat ensures !MigrationPod(c', h', p) {
      assert !MigrationPod(c, h, p);
    }
  }

  lemma {:induction false} LaunchInv(s: System)
    requires Inv(s) && s.pending.Launch? && s.pending.name !in s.c.jobs
    ensures Inv(System(CreateJob(s.c, s.pending.name, s.pending.template), Nothing,
                       After(s.h, Launched(s.c.nextUid, s.pending.template))))
  {
    assert !WasLaunched(s.h, s.c.nextUid);
    LaunchExclusive(s.c, s.h, s.pending.name, s.pending.template);
  }

  lemma {:induction false} DeleteInv(s: System, name: string, pending: Plan)
    requires Inv(s) && (pending.Nothing? || pending.DeleteObsolete?)
    ensures Inv(s.(c := DeleteForeground(s.c, name), pending := pending))
  {
    forall p: nat ensures MigrationPod(DeleteForeground(s.c, name), s.h, p) <==> MigrationPod(s.c, s.h, p) {}
  }

  lemma {:induction false} DeleteFailedInv(s: System)
    requires Inv(s) && s.pending.AcceptRetry? && s.pending.failedJob.Some?
    ensures Inv(s.(c := DeleteBackground(s.c, s.pending.failedJob.value), pending := s.pending.(failedJob := None)))
  {
    var c' := DeleteBackground(s.c, s.pending.failedJob.value);
    forall p: nat ensures MigrationPod(c', s.h, p) <==> MigrationPod(s.c, s.h, p) {}
  }

  lemma {:induction false} CommitInv(s: System, s': System)
    requires Inv(s) && Commit(s, s')
    ensures Inv(s')
  {
    match s.pending
    case DeleteObsolete(names) =>
      var name :| name in names &&
        s' == s.(c := DeleteForeground(s.c, name), pending := DeleteObsolete(names - {name}));
      DeleteInv(s, name, s'.pending);
    case AcceptRetry(Some(_), _, _) => DeleteFailedInv(s);
    case AcceptRetry(None, value, put) => PutStateInv(s, put, RetryAccepted(value));
    case DeleteStale(name) => DeleteInv(s, name, Nothing);
    case Record(_, _, _, _, _) => RecordInv(s);
    case NoteFailure(put, version, generation) => PutStateInv(s, put, FailureNoted(version, generation));
    case Launch(name, _) => if name !in s.c.jobs { LaunchInv(s); }
    case Nothing =>
  }

  lemma {:induction false} NextInv(s: System, s': System)
    requires Inv(s) && Next(s, s')
    ensures Inv(s')
  {
    if Observe(s, s') {
      DecideGood(s.c, s.h);
    } else if Commit(s, s') {
      CommitInv(s, s');
    } else if Environment(s, s') {
      var tick :| Possible(s.c, tick) && s' == s.(c := Happen(s.c, tick));
      EnvironmentInv(s, tick);
    }
  }

  lemma {:induction false} RunInv(run: seq<System>, i: nat)
    requires IsRun(run) && i < |run|
    ensures Inv(run[i])
  {
    if i > 0 {
      RunInv(run, i - 1);
      NextInv(run[i - 1], run[i]);
    }
  }

  // ----- Mutual exclusion

  /** In every state of every run there is at most one owned migration Job, and
      all migration Pods belong to one Job, the one launched last. */
  lemma {:induction false} MutualExclusion(run: seq<System>, i: nat)
    requires IsRun(run) && i < |run|
    ensures var s := run[i];
      && (forall n, m | n in s.c.jobs && m in s.c.jobs && s.c.jobs[n].owned && s.c.jobs[m].owned :: n == m)
      && (forall p: nat, q: nat | MigrationPod(s.c, s.h, p) && MigrationPod(s.c, s.h, q) ::
            s.c.pods[p].controllerJob == s.c.pods[q].controllerJob)
      && (forall n, p: nat | n in s.c.jobs && s.c.jobs[n].owned && MigrationPod(s.c, s.h, p) ::
            s.c.pods[p].controllerJob == Some(s.c.jobs[n].uid))
  {
    RunInv(run, i);
  }

  /** A step that launches a Job starts from a cluster with no owned Job and no
      Pod of any earlier migration Job. */
  lemma {:induction false} LaunchIntoVacancy(run: seq<System>, i: nat)
    requires IsRun(run) && i + 1 < |run|
    requires LastLaunch(run[i + 1].h) != LastLaunch(run[i].h)
    ensures Vacant(run[i].c, run[i].h)
    ensures LastLaunch(run[i + 1].h) == Some(run[i].c.nextUid) && !WasLaunched(run[i].h, run[i].c.nextUid)
  {
    RunInv(run, i);
    var s, s' := run[i], run[i + 1];
    assert Next(s, s');
    assert s'.h != s.h;
    assert Commit(s, s');
    assert s.pending.Launch?;
  }

  // ----- The version stamp is truthful

  predicate InHistory(h: History, e: Event) {
    h.After? && (h.last == e || InHistory(h.past, e))
  }

  /** The recorded Job stood in the cluster, under the recorded target and spec, at or before state i. */
  ghost predicate Seen(run: seq<System>, i: nat, job: Job, target: Target, spec: Spec) {
    exists j, name | 0 <= j <= i < |run| && name in run[j].c.jobs ::
      run[j].c.jobs[name] == job && run[j].c.target == target && run[j].c.spec == spec
  }

  lemma {:induction false} EverythingSeen(run: seq<System>, i: nat)
    requires IsRun(run) && i < |run|
    ensures run[i].pending.Record? ==> Seen(run, i, run[i].pending.job, run[i].pending.target, run[i].pending.spec)
    ensures forall e: Event | e.Recorded? && InHistory(run[i].h, e) :: Seen(run, i, e.job, e.target, e.spec)
  {
    if i > 0 {
      EverythingSeen(run, i - 1);
      var s, s' := run[i - 1], run[i];
      assert Next(s, s');
      if Observe(s, s') && s'.pending.Record? {
        assert s.c.jobs[JobName(s.c.target)] == s'.pending.job;
      }
      forall e: Event | e.Recorded? && InHistory(s'.h, e) ensures Seen(run, i, e.job, e.target, e.spec) {
        if InHistory(s.h, e) {
          assert Seen(run, i - 1, e.job, e.target, e.spec);
        } else {
          assert Seen(run, i - 1, s.pending.job, s.pending.target, s.pending.spec);
        }
      }
      if s'.pending.Record? && s.pending == s'.pending {
        assert Seen(run, i - 1, s.pending.job, s.pending.target, s.pending.spec);
      }
    }
  }

  lemma {:induction false} LastRecordGood(h: History)
    requires GoodHistory(h) && LastRecord(h).Some?
    ensures LastRecord(h).value.Recorded? && Justified(LastRecord(h).value) && InHistory(h, LastRecord(h).value)
  {
    if !h.last.Recorded? { LastRecordGood(h.past); }
  }

  /** Whenever the state ConfigMap names an applied version, that version was the
      target at an earlier moment when a succeeded Job, rendered exactly as that
      target and spec demand, stood in the cluster. */
  lemma {:induction false} TruthfulStamp(run: seq<System>, i: nat)
    requires IsRun(run) && i < |run|
    requires StateOf(run[i].c).appliedVersion != ""
    ensures exists j, name, fixtures | 0 <= j <= i && name in run[j].c.jobs ::
      var job := run[j].c.jobs[name];
      && run[j].c.target.version == StateOf(run[i].c).appliedVersion
      && StateOf(run[i].c).appliedJob == Some(job.uid)
      && job.status.Succeeded?
      && SameRender(job.template, Render(run[j].c.target, run[j].c.spec, fixtures))
  {
    RunInv(run, i);
    LastRecordGood(run[i].h);
    var e := LastRecord(run[i].h).value;
    EverythingSeen(run, i);
    var j, name :| 0 <= j <= i < |run| && name in run[j].c.jobs &&
      run[j].c.jobs[name] == e.job && run[j].c.target == e.target && run[j].c.spec == e.spec;
    assert SameRender(run[j].c.jobs[name].template, Render(run[j].c.target, run[j].c.spec, e.fixtures));
  }

  /** The recorded version only ever moves to a target that supports migrating from it. */
  lemma {:induction false} SupportedUpgradesOnly(run: seq<System>, i: nat, past: History, e: Event)
    requires IsRun(run) && i < |run| && run[i].h == After(past, e) && e.Recorded?
    ensures StateOf(run[i].c).appliedVersion == e.version == e.target.version
    ensures RecordedVersion(past) != e.version
    ensures var before := TrimSpace(RecordedVersion(past));
      before == "" || before == e.version || (e.target.previousVersion != "" && before == e.target.previousVersion)
  {
    RunInv(run, i);
  }

  // ----- Fixtures

  predicate Extends(h: History, h': History) {
    h == h' || (h'.After? && Extends(h, h'.past))
  }

  lemma {:induction false} HistoryGrows(run: seq<System>, i: nat, j: nat)
    requires IsRun(run) && i <= j < |run|
    ensures Extends(run[i].h, run[j].h)
  {
    if i < j {
      HistoryGrows(run, i, j - 1);
      assert Next(run[j - 1], run[j]);
      assert run[j].h == run[j - 1].h || (run[j].h.After? && run[j].h.past == run[j - 1].h);
    }
  }

  lemma {:induction false} ReadingsGrow(h: History, h': History)
    requires Extends(h, h')
    ensures FixturesRan(h) ==> FixturesRan(h')
    ensures LastRecord(h).Some? ==> LastRecord(h').Some?
  {
    if h != h' { ReadingsGrow(h, h'.past); }
  }

  /** The recorded fixtures flag is true exactly when a recorded Job ran with fixtures, which
      is when the first recorded one did, and it never reverts. */
  lemma {:induction false} FixturesFlag(run: seq<System>, i: nat, j: nat)
    requires IsRun(run) && i <= j < |run|
    ensures StateOf(run[i].c).fixturesApplied <==> FixturesRan(run[i].h)
    ensures FixturesRan(run[i].h) <==>
      FirstRecord(run[i].h).Some? && FirstRecord(run[i].h).value.Recorded? && RunsFixtures(FirstRecord(run[i].h).value.job.template)
    ensures StateOf(run[i].c).fixturesApplied ==> StateOf(run[j].c).fixturesApplied
  {
    RunInv(run, i);
    RunInv(run, j);
    FirstRecordDecides(run[i].h);
    HistoryGrows(run, i, j);
    ReadingsGrow(run[i].h, run[j].h);
  }

  lemma {:induction false} FirstRecordDecides(h: History)
    requires GoodHistory(h)
    ensures FirstRecord(h).Some? ==> FirstRecord(h).value.Recorded?
    ensures LastRecord(h).Some? <==> FirstRecord(h).Some?
    ensures FixturesRan(h) <==> FirstRecord(h).Some? && RunsFixtures(FirstRecord(h).value.job.template)
  {
    if h.After? { FirstRecordDecides(h.past); }
  }

  // ----- Fixtures that ran and were forgotten

  /** An owned Job that succeeded with fixtures. */
  predicate Loaded(job: Job) {
    job.owned && job.status.Succeeded? && RunsFixtures(job.template)
  }

  /** Some Job of the operator's, or one it recorded, succeeded with fixtures at or before state i. */
  ghost predicate FixturesSucceeded(run: seq<System>, i: nat) {
    exists k, name | 0 <= k <= i < |run| && name in run[k].c.jobs ::
      var job := run[k].c.jobs[name];
      Loaded(job) || (job.status.Succeeded? && RunsFixtures(job.template) && RecordedJob(run[i].h, job))
  }

  predicate Stays(c: Cluster, c': Cluster, name: string) {
    name in c.jobs && name in c'.jobs && c'.jobs[name].uid == c.jobs[name].uid
  }

  /** At step k a Job that succeeded with fixtures leaves the cluster, removed by someone or
      deleted as stale or obsolete, while no version is recorded. */
  ghost predicate LostUnrecorded(run: seq<System>, k: int) {
    0 <= k < |run| - 1 && LastRecord(run[k].h).None? &&
    exists name :: name in run[k].c.jobs && Loaded(run[k].c.jobs[name]) && !Stays(run[k].c, run[k + 1].c, name)
  }

  ghost predicate NothingLost(run: seq<System>, i: nat) {
    forall m | 0 <= m < i :: !LostUnrecorded(run, m)
  }

  lemma {:induction false} StayingJob(s: System, s': System, name: string)
    requires Next(s, s') && Stays(s.c, s'.c, name) && Loaded(s.c.jobs[name])
    ensures Loaded(s'.c.jobs[name])
  {
    if Environment(s, s') {
      var tick :| Possible(s.c, tick) && s' == s.(c := Happen(s.c, tick));
    }
  }

  lemma {:induction false} NoneRecordedBefore(run: seq<System>, k: nat, i: nat)
    requires IsRun(run) && k <= i < |run| && LastRecord(run[i].h).None?
    ensures LastRecord(run[k].h).None?
  {
    HistoryGrows(run, k, i);
    ReadingsGrow(run[k].h, run[i].h);
  }

  lemma {:induction false} OneStepThere(run: seq<System>, i: nat, name: string)
    requires IsRun(run) && i + 1 < |run| && name in run[i].c.jobs && Loaded(run[i].c.jobs[name])
    requires LastRecord(run[i].h).None? && !LostUnrecorded(run, i)
    ensures name in run[i + 1].c.jobs && Loaded(run[i + 1].c.jobs[name])
  {
    assert Next(run[i], run[i + 1]);
    StayingJob(run[i], run[i + 1], name);
  }

  lemma {:induction false} StillThere(run: seq<System>, k: nat, i: nat, name: string)
    requires IsRun(run) && k <= i < |run| && name in run[k].c.jobs && Loaded(run[k].c.jobs[name])
    requires LastRecord(run[i].h).None? && NothingLost(run, i)
    ensures name in run[i].c.jobs && Loaded(run[i].c.jobs[name])
    decreases i - k
  {
    if k < i {
      NoneRecordedBefore(run, k, i);
      OneStepThere(run, k, name);
      StillThere(run, k + 1, i, name);
    }
  }

  lemma {:induction false} RecordingMovesNoJob(s: System, s': System)
    requires Next(s, s') && LastRecord(s.h).None? && LastRecord(s'.h).Some?
    ensures s'.c.jobs == s.c.jobs
  {
  }

  lemma {:induction false} RememberedUnlessLost(run: seq<System>, k: nat, i: nat, name: string)
    requires IsRun(run) && k <= i < |run| && name in run[k].c.jobs && Loaded(run[k].c.jobs[name])
    requires LastRecord(run[i].h).Some? && NothingLost(run, i)
    ensures FixturesRan(run[i].h)
  {
    RunInv(run, i);
    if k < i {
      HistoryGrows(run, i - 1, i);
      ReadingsGrow(run[i - 1].h, run[i].h);
      if LastRecord(run[i - 1].h).Some? {
        RememberedUnlessLost(run, k, i - 1, name);
      } else {
        StillThere(run, k, i - 1, name);
        assert Next(run[i - 1], run[i]);
        RecordingMovesNoJob(run[i - 1], run[i]);
      }
    }
  }

  lemma {:induction false} RecordedFixtures(h: History, job: Job)
    requires RecordedJob(h, job) && RunsFixtures(job.template)
    ensures FixturesRan(h)
  {
    if !(h.last.Recorded? && h.last.job == job) { RecordedFixtures(h.past, job); }
  }

  lemma {:induction false} FixturesEvent(h: History) returns (e: Event)
    requires GoodHistory(h) && FixturesRan(h)
    ensures e.Recorded? && InHistory(h, e) && RunsFixtures(e.job.template) && e.job.status.Succeeded? && RecordedJob(h, e.job)
  {
    if h.last.Recorded? && RunsFixtures(h.last.job.template) { e := h.last; } else { e := FixturesEvent(h.past); }
  }

  /** Once a version is recorded, the flag tells whether any Job succeeded with fixtures, if
      and only if it is set or no Job that succeeded with fixtures left unrecorded. */
  lemma {:induction false} FixturesFlagExactly(run: seq<System>, i: nat)
    requires IsRun(run) && i < |run| && StateOf(run[i].c).appliedVersion != ""
    ensures (StateOf(run[i].c).fixturesApplied <==> FixturesSucceeded(run, i)) <==>
      StateOf(run[i].c).fixturesApplied || forall k | 0 <= k < i :: !LostUnrecorded(run, k)
  {
    RunInv(run, i);
    if FixturesRan(run[i].h) {
      var e := FixturesEvent(run[i].h);
      EverythingSeen(run, i);
      assert Seen(run, i, e.job, e.target, e.spec);
    } else if forall k | 0 <= k < i :: !LostUnrecorded(run, k) {
      forall k, name | 0 <= k <= i && name in run[k].c.jobs
        ensures !Loaded(run[k].c.jobs[name])
        ensures RunsFixtures(run[k].c.jobs[name].template) ==> !RecordedJob(run[i].h, run[k].c.jobs[name])
      {
        if Loaded(run[k].c.jobs[name]) { RememberedUnlessLost(run, k, i, name); }
        if RunsFixtures(run[k].c.jobs[name].template) && RecordedJob(run[i].h, run[k].c.jobs[name]) {
          RecordedFixtures(run[i].h, run[k].c.jobs[name]);
        }
      }
    } else {
      var k :| 0 <= k < i && LostUnrecorded(run, k);
      var name :| name in run[k].c.jobs && Loaded(run[k].c.jobs[name]) && !Stays(run[k].c, run[k + 1].c, name);
    }
  }

  // ----- A run that forgets its fixtures

  function Last(run: seq<System>): System
    requires run != []
  {
    run[|run| - 1]
  }

  lemma Extend(run: seq<System>, next: System) returns (longer: seq<System>)
    requires IsRun(run) && Next(Last(run), next)
    ensures IsRun(longer) && Last(longer) == next && run < longer
  {
    longer := run + [next];
    forall i, j | 0 <= i < j < |longer| && j == i + 1 ensures Next(longer[i], longer[j]) {
      assert longer[i] == run[i];
      if j < |run| { assert longer[j] == run[j] && Next(run[i], run[j]); }
    }
  }

  /** Nothing stands in the cluster and the schema can be migrated without a retry. */
  predicate Bare(s: System) {
    && s.pending.Nothing? && s.c.jobs == map[] && s.c.pods == map[]
    && Upgradable(s.c) && !RetryDue(s.c, TrimSpace(s.c.spec.retryAnnotation))
  }

  /** A finished Job of this render stands alone, and the schema can be migrated without a retry. */
  predicate Ready(s: System, template: Template) {
    && s.pending.Nothing? && s.c.pods == map[] && JobName(s.c.target) in s.c.jobs
    && s.c.jobs == map[JobName(s.c.target) := s.c.jobs[JobName(s.c.target)]]
    && Upgradable(s.c) && !RetryDue(s.c, TrimSpace(s.c.spec.retryAnnotation))
    && var job := s.c.jobs[JobName(s.c.target)]; job.owned && job.status.Succeeded? && job.template == template
  }

  function Desired(c: Cluster): Template {
    Render(c.target, c.spec, IncludeFixtures(c))
  }

  lemma {:induction false} LaunchedAndFinished(run: seq<System>) returns (longer: seq<System>)
    requires IsRun(run) && Bare(Last(run))
    ensures IsRun(longer) && run < longer && Ready(Last(longer), Desired(Last(run).c))
    ensures var c, c' := Last(run).c, Last(longer).c; c'.target == c.target && c'.spec == c.spec && c'.state == c.state
  {
    var c := Last(run).c;
    var name, template := JobName(c.target), Desired(c);
    assert ObsoleteJobs(c.jobs, name) == {};
    assert Decide(c) == Launch(name, template);
    longer := Extend(run, Last(run).(pending := Decide(Last(run).c)));
    longer := Extend(longer, System(CreateJob(c, name, template), Nothing, After(Last(run).h, Launched(c.nextUid, template))));
    longer := Extend(longer, Last(longer).(c := Happen(Last(longer).c, JobFinishes(name, Succeeded))));
  }

  lemma {:induction false} DeletedAsStale(run: seq<System>, template: Template) returns (longer: seq<System>)
    requires IsRun(run) && Ready(Last(run), template) && !SameRender(template, Desired(Last(run).c))
    ensures IsRun(longer) && run < longer && Bare(Last(longer))
    ensures var c, c' := Last(run).c, Last(longer).c; c'.target == c.target && c'.spec == c.spec && c'.state == c.state
  {
    var c := Last(run).c;
    var name := JobName(c.target);
    assert ObsoleteJobs(c.jobs, name) == {};
    assert Decide(c) == DeleteStale(name);
    longer := Extend(run, Last(run).(pending := Decide(Last(run).c)));
    longer := Extend(longer, Last(longer).(c := DeleteForeground(c, name), pending := Nothing));
    longer := Extend(longer, Last(longer).(c := Happen(Last(longer).c, JobRemoved(name))));
    assert Last(longer).c.jobs == map[];
  }

  lemma {:induction false} SuccessRecorded(run: seq<System>) returns (longer: seq<System>)
    requires IsRun(run) && Ready(Last(run), Desired(Last(run).c))
    ensures IsRun(longer) && run < longer && Last(longer).c.target == Last(run).c.target
    ensures StateOf(Last(longer).c).appliedVersion == Last(run).c.target.version
    ensures StateOf(Last(longer).c).fixturesApplied == (IncludeFixtures(Last(run).c) || StateOf(Last(run).c).fixturesApplied)
  {
    var c := Last(run).c;
    var name := JobName(c.target);
    assert ObsoleteJobs(c.jobs, name) == {};
    assert Decide(c) == DecideForJob(c, name, Desired(c));
    longer := Extend(run, Last(run).(pending := Decide(Last(run).c)));
    var p := Last(longer).pending;
    longer := Extend(longer, PutState(Last(longer), p.put, Recorded(p.put.appliedVersion, p.job, p.target, p.spec, p.fixtures)));
  }

  // ----- No dead end

  lemma {:induction false} JobsRemoved(run: seq<System>) returns (longer: seq<System>)
    requires IsRun(run)
    ensures IsRun(longer) && run <= longer && Last(longer) == Last(run).(c := Last(run).c.(jobs := map[]))
    decreases Last(run).c.jobs.Keys
  {
    longer := run;
    if name :| name in Last(run).c.jobs {
      longer := Extend(run, Last(run).(c := Happen(Last(run).c, JobRemoved(name))));
      longer := JobsRemoved(longer);
    }
  }

  lemma {:induction false} PodsRemoved(run: seq<System>) returns (longer: seq<System>)
    requires IsRun(run)
    ensures IsRun(longer) && run <= longer && Last(longer) == Last(run).(c := Last(run).c.(pods := map[]))
    decreases Last(run).c.pods.Keys
  {
    longer := run;
    if pod :| pod in Last(run).c.pods {
      longer := Extend(run, Last(run).(c := Happen(Last(run).c, PodGone(pod))));
      longer := PodsRemoved(longer);
    }
  }

  lemma {:induction false} RetryTaken(run: seq<System>) returns (longer: seq<System>)
    requires IsRun(run) && Last(run).pending.Nothing? && Last(run).c.jobs == map[] && Last(run).c.pods == map[]
    requires Upgradable(Last(run).c) && RetryDue(Last(run).c, TrimSpace(Last(run).c.spec.retryAnnotation))
    ensures IsRun(longer) && run <= longer && Bare(Last(longer)) && Last(longer).c.target == Last(run).c.target
  {
    var c := Last(run).c;
    var value := TrimSpace(c.spec.retryAnnotation);
    assert ObsoleteJobs(c.jobs, JobName(c.target)) == {};
    assert Decide(c) == AcceptRetry(None, value, RetryState(c, value));
    longer := Extend(run, Last(run).(pending := Decide(c)));
    longer := Extend(longer, PutState(Last(longer), RetryState(c, value), RetryAccepted(value)));
  }

  /** From every state of every run in which the target can be migrated to, whatever Jobs, Pods,
      failures and pending retries there are, some continuation records the target. */
  lemma {:induction false} TargetReachable(run: seq<System>) returns (longer: seq<System>)
    requires IsRun(run) && Upgradable(Last(run).c)
    ensures IsRun(longer) && run < longer && Last(longer).c.target == Last(run).c.target
    ensures StateOf(Last(longer).c).appliedVersion == Last(run).c.target.version
  {
    longer := Extend(run, Last(run).(pending := Nothing));
    longer := JobsRemoved(longer);
    longer := PodsRemoved(longer);
    if RetryDue(Last(longer).c, TrimSpace(Last(longer).c.spec.retryAnnotation)) { longer := RetryTaken(longer); }
    longer := LaunchedAndFinished(longer);
    longer := SuccessRecorded(longer);
  }

  /** Without that condition the flag is wrong: fixtures run, are switched off before the
      success is seen, the Job is deleted as stale, and a plain Job is recorded. */
  lemma {:induction false} FixturesForgotten(target: Target, spec: Spec) returns (run: seq<System>)
    requires ValidTarget(target) && spec.applyFixtures
    ensures IsRun(run) && StateOf(Last(run).c).appliedVersion == target.version != ""
    ensures !StateOf(Last(run).c).fixturesApplied && FixturesSucceeded(run, |run| - 1)
  {
    var template := Render(target, spec, true);
    RenderDeterminesFixtures(target, spec, true, template);
    var first := LaunchedAndFinished([System(Cluster(target, spec, map[], map[], None, 0), Nothing, Start)]);
    var k, name := |first| - 1, JobName(target);
    var switched := Extend(first, Last(first).(c := Happen(Last(first).c, Reconfigure(target, spec.(applyFixtures := false)))));
    if SameRender(template, Render(target, spec.(applyFixtures := false), false)) {
      RenderDeterminesFixtures(target, spec.(applyFixtures := false), false, template);
    }
    assert Desired(Last(switched).c) == Render(target, spec.(applyFixtures := false), false);
    var stale := DeletedAsStale(switched, template);
    var again := LaunchedAndFinished(stale);
    run := SuccessRecorded(again);
    assert run[k] == first[k] && Loaded(run[k].c.jobs[name]);
  }

  /** Once a version has been recorded, no later launch loads fixtures. */
  lemma {:induction false} FixturesOnce(run: seq<System>, i: nat, j: nat, past: History, uid: nat, template: Template)
    requires IsRun(run) && i <= j < |run| && StateOf(run[i].c).appliedVersion != ""
    requires run[j].h == After(past, Launched(uid, template)) && Extends(run[i].h, past)
    ensures !RunsFixtures(template)
  {
    RunInv(run, i);
    RunInv(run, j);
    ReadingsGrow(run[i].h, past);
  }

  // ----- Failures and retries

  /** The stored counter is the length of the current run of failures, between 1
      and 3; the controller blocks exactly when that run has length 3 and is of the
      current version and generation. */
  lemma {:induction false} FailureCounter(run: seq<System>, i: nat)
    requires IsRun(run) && i < |run|
    ensures var s := run[i];
      var streak := FailureStreak(s.h);
      && streak.length <= 3
      && StateOf(s.c).failureCount == (if streak.length == 0 then None else Some(streak.length))
      && (TerminalFailure(s.c) <==> streak == Streak(3, s.c.target.version, s.c.spec.generation))
  {
    RunInv(run, i);
  }

  predicate Accepts(s: System, s': System, value: string) {
    s'.h == After(s.h, RetryAccepted(value))
  }

  lemma {:induction false} RetryKept(run: seq<System>, i: nat, j: nat, value: string)
    requires IsRun(run) && i <= j < |run| && LastRetry(run[i].h) == value
    requires forall k, w, l | i <= k < l <= j && l == k + 1 && Accepts(run[k], run[l], w) :: w == value
    ensures LastRetry(run[j].h) == value
  {
    if i < j {
      RetryKept(run, i, j - 1, value);
      var s, s' := run[j - 1], run[j];
      assert Next(s, s');
      if s'.h != s.h && s'.h.last.RetryAccepted? {
        assert Accepts(s, s', s'.h.last.value);
      }
    }
  }

  /** Between two acceptances of the same retry value another value was accepted,
      however many failures, successes and crashes lie between them; and a retry is
      only ever accepted after three failures in a row. */
  lemma {:induction false} RetryConsumedOnce(run: seq<System>, i: nat, j: nat, value: string)
    requires IsRun(run) && i < j && j + 1 < |run|
    requires Accepts(run[i], run[i + 1], value) && Accepts(run[j], run[j + 1], value)
    ensures exists k, w, l | i + 1 <= k < l <= j && l == k + 1 && Accepts(run[k], run[l], w) :: w != value
    ensures FailureStreak(run[j].h).length == 3
  {
    RunInv(run, j + 1);
    assert Allowed(run[j].h, RetryAccepted(value));
    if forall k, w, l | i + 1 <= k < l <= j && l == k + 1 && Accepts(run[k], run[l], w) :: w == value {
      RetryKept(run, i + 1, j, value);
      assert false;
    }
  }
}
