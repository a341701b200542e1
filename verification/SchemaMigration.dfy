/** The schema-migration controller: what one reconcile reads, and the single
    action its stages pick.  The stages run in the source's order: recorded
    state, obsolete Jobs, retry, stale Job, succeeded Job, failed Job, running
    Job, leftover Pods, launch. */
module SchemaMigration {
  import opened Base

  // ----- Inputs: the selected release and the parts of the Tamoss the renderer reads

  datatype Target = Target(version: string, previousVersion: string, databaseRevision: string)

  /** The release catalogue only loads versions that are not blank. */
  predicate ValidTarget(t: Target) {
    TrimSpace(t.version) != ""
  }

  predicate Supports(t: Target, version: string) {
    var value := TrimSpace(version);
    value == "" || value == t.version || (t.previousVersion != "" && value == t.previousVersion)
  }

  datatype Spec = Spec(
    generation: nat,
    retryAnnotation: string,
    applyFixtures: bool,
    cnpg: bool,
    image: string,
    env: seq<string>,
    mounts: seq<string>,
    volumes: seq<string>)

  // ----- Rendered Jobs

  datatype Container = Container(
    image: string, command: seq<string>, args: seq<string>, env: seq<string>, mounts: seq<string>)

  /** `defaulted` stands for the fields the API server fills in. */
  datatype Template = Template(containers: seq<Container>, volumes: seq<string>, defaulted: string)

  const APPLY_FIXTURES := "--apply-fixtures"
  const APPLY_CNPG_OWNERSHIP := "--apply-cnpg-ownership"

  function Args(revision: string, fixtures: bool, cnpg: bool): seq<string> {
    ["run", "tamoss-db", "migrate", "--revision", revision]
    + (if fixtures then [APPLY_FIXTURES] else [])
    + (if cnpg then [APPLY_CNPG_OWNERSHIP] else [])
  }

  function Render(t: Target, spec: Spec, fixtures: bool): Template {
    Template(
      [Container(spec.image, ["uv"], Args(t.databaseRevision, fixtures, spec.cnpg), spec.env, spec.mounts)],
      spec.volumes, "")
  }

  /** The rendered fields of two templates agree; server defaults are ignored. */
  predicate SameRender(live: Template, desired: Template) {
    live.containers == desired.containers && live.volumes == desired.volumes
  }

  /** What the drift check walks over, container by container. */
  method TemplateDrifted(live: Template, desired: Template) returns (drifted: bool)
    ensures drifted <==> !SameRender(live, desired)
  {
    if |live.containers| != |desired.containers| || live.volumes != desired.volumes {
      return true;
    }
    for index := 0 to |desired.containers|
      invariant forall k | 0 <= k < index :: live.containers[k] == desired.containers[k]
    {
      var l, d := live.containers[index], desired.containers[index];
      if l.image != d.image || l.command != d.command || l.args != d.args || l.env != d.env || l.mounts != d.mounts {
        return true;
      }
    }
    return false;
  }

  /** The migration container was told to load fixtures. */
  predicate RunsFixtures(template: Template) {
    |template.containers| == 1 && |template.containers[0].args| > 5
    && template.containers[0].args[5] == APPLY_FIXTURES
  }

  lemma RenderDeterminesFixtures(t: Target, spec: Spec, fixtures: bool, live: Template)
    requires SameRender(live, Render(t, spec, fixtures))
    ensures RunsFixtures(live) <==> fixtures
  {
    var args := Args(t.databaseRevision, fixtures, spec.cnpg);
    assert live.containers[0].args == args;
    if !fixtures && spec.cnpg {
      assert args[5] == APPLY_CNPG_OWNERSHIP;
      assert APPLY_CNPG_OWNERSHIP[8] == 'c' && APPLY_FIXTURES[8] == 'f';
    }
  }

  /** The drift check tells two renders apart exactly when the revision, the fixtures, the
      ownership step or anything the Tamoss contributes differs. */
  lemma {:induction false} RenderTellsApart(t: Target, spec: Spec, fixtures: bool, t': Target, spec': Spec, fixtures': bool)
    ensures SameRender(Render(t, spec, fixtures), Render(t', spec', fixtures')) <==>
      && t.databaseRevision == t'.databaseRevision && fixtures == fixtures' && spec.cnpg == spec'.cnpg
      && spec.image == spec'.image && spec.env == spec'.env && spec.mounts == spec'.mounts && spec.volumes == spec'.volumes
  {
    var live, desired := Render(t, spec, fixtures), Render(t', spec', fixtures');
    var a, b := Args(t.databaseRevision, fixtures, spec.cnpg), Args(t'.databaseRevision, fixtures', spec'.cnpg);
    assert a[4] == t.databaseRevision && b[4] == t'.databaseRevision;
    if SameRender(live, desired) {
      RenderDeterminesFixtures(t, spec, fixtures, live);
      RenderDeterminesFixtures(t', spec', fixtures', live);
      assert live.containers[0] == desired.containers[0];
      assert |a| == 5 + (if fixtures then 1 else 0) + (if spec.cnpg then 1 else 0);
    }
  }

  // ----- Job names: the version part is lossy, so two versions may share a name

  function NameChar(c: char): char {
    if c == '.' || c == '_' then '-'
    else if 'A' <= c <= 'Z' then (c as int + 32) as char
    else c
  }

  function NameChars(s: string): string {
    if s == "" then "" else [NameChar(s[0])] + NameChars(s[1..])
  }

  function JobName(t: Target): string {
    var version := if "v" <= t.version then t.version[1..] else t.version;
    "schema-migrate-" + NameChars(if version == "" then "dev" else version)
  }

  // ----- Cluster

  datatype JobStatus = Active | Succeeded | Failed

  datatype Job = Job(uid: nat, owned: bool, template: Template, deleting: bool, status: JobStatus)

  datatype Pod = Pod(controllerJob: Option<nat>)

  /** The schema-state ConfigMap: data entries and the retry-done annotation. */
  datatype StateMap = StateMap(
    appliedVersion: string,
    appliedJob: Option<nat>,
    fixturesApplied: bool,
    failureCount: Option<nat>,
    failedGeneration: Option<nat>,
    failedVersion: string,
    retryDone: string)

  const EMPTY_STATE := StateMap("", None, false, None, None, "", "")

  /** `jobs` and `pods` hold the objects that carry the schema labels. */
  datatype Cluster = Cluster(
    target: Target, spec: Spec,
    jobs: map<string, Job>, pods: map<nat, Pod>,
    state: Option<StateMap>, nextUid: nat)

  function StateOf(c: Cluster): StateMap {
    if c.state.Some? then c.state.value else EMPTY_STATE
  }

  predicate HasAppliedVersion(state: Option<StateMap>) {
    state.Some? && TrimSpace(state.value.appliedVersion) != ""
  }

  function IncludeFixtures(c: Cluster): bool {
    c.spec.applyFixtures && !HasAppliedVersion(c.state)
  }

  predicate TerminalFailure(c: Cluster) {
    && c.state.Some?
    && c.state.value.failedVersion == c.target.version
    && c.state.value.failedGeneration == Some(c.spec.generation)
    && c.state.value.failureCount.Some? && c.state.value.failureCount.value >= 3
  }

  function NextFailureCount(c: Cluster): nat {
    if c.state.None? then 1
    else if c.state.value.failedVersion != c.target.version then 1
    else if c.state.value.failedGeneration != Some(c.spec.generation) then 1
    else if c.state.value.failureCount.None? then 1
    else c.state.value.failureCount.value + 1
  }

  // ----- The three ways the state ConfigMap is rebuilt

  function AppliedState(c: Cluster, job: Job): StateMap {
    EMPTY_STATE.(
      appliedVersion := c.target.version,
      appliedJob := Some(job.uid),
      fixturesApplied := IncludeFixtures(c) || StateOf(c).fixturesApplied,
      retryDone := StateOf(c).retryDone)
  }

  function FailureState(c: Cluster): StateMap {
    StateOf(c).(
      failureCount := Some(NextFailureCount(c)),
      failedGeneration := Some(c.spec.generation),
      failedVersion := c.target.version)
  }

  function RetryState(c: Cluster, value: string): StateMap {
    StateOf(c).(failureCount := None, failedGeneration := None, failedVersion := "", retryDone := value)
  }

  // ----- The decision of one reconcile

  datatype Plan =
    | Nothing
    | DeleteObsolete(names: set<string>)
    | AcceptRetry(failedJob: Option<string>, value: string, put: StateMap)
    | DeleteStale(name: string)
    | Record(put: StateMap, job: Job, target: Target, spec: Spec, fixtures: bool)
    | NoteFailure(put: StateMap, version: string, generation: nat)
    | Launch(name: string, template: Template)

  function ObsoleteJobs(jobs: map<string, Job>, desired: string): set<string> {
    set name | name in jobs && name != desired && jobs[name].owned
  }

  predicate RetryDue(c: Cluster, value: string) {
    value != "" && TerminalFailure(c) && StateOf(c).retryDone != value
  }

  predicate JobPodsRemain(c: Cluster) {
    exists uid | uid in c.pods :: c.pods[uid].controllerJob.Some?
  }

  /** The stages that look at a Job of the desired name. */
  function DecideForJob(c: Cluster, name: string, desired: Template): Plan
    requires name in c.jobs
  {
    var job := c.jobs[name];
    if !SameRender(job.template, desired) then DeleteStale(name)
    else if job.status.Succeeded? then Record(AppliedState(c, job), job, c.target, c.spec, IncludeFixtures(c))
    else if job.status.Failed? && !TerminalFailure(c) then
      NoteFailure(FailureState(c), c.target.version, c.spec.generation)
    else Nothing
  }

  predicate Settled(c: Cluster) {
    c.state.Some? && (!Supports(c.target, c.state.value.appliedVersion) || c.state.value.appliedVersion == c.target.version)
  }

  function Decide(c: Cluster): Plan {
    if Settled(c) then Nothing
    else
      var name := JobName(c.target);
      var desired := Render(c.target, c.spec, IncludeFixtures(c));
      var value := TrimSpace(c.spec.retryAnnotation);
      if ObsoleteJobs(c.jobs, name) != {} then DeleteObsolete(ObsoleteJobs(c.jobs, name))
      else if RetryDue(c, value) then
        AcceptRetry(if name in c.jobs && c.jobs[name].status.Failed? then Some(name) else None,
                    value, RetryState(c, value))
      else if name in c.jobs then DecideForJob(c, name, desired)
      else if JobPodsRemain(c) then Nothing
      else Launch(name, desired)
  }

  // ----- Writes

  function DeleteForeground(c: Cluster, name: string): Cluster {
    if name in c.jobs then c.(jobs := c.jobs[name := c.jobs[name].(deleting := true)]) else c
  }

  function DeleteBackground(c: Cluster, name: string): Cluster {
    c.(jobs := c.jobs - {name})
  }

  /** Applying the rendered Job creates it; over an existing Job the API server
      refuses, because Job templates are immutable. */
  function CreateJob(c: Cluster, name: string, template: Template): Cluster {
    if name in c.jobs then c
    else c.(jobs := c.jobs[name := Job(c.nextUid, true, template, false, Active)], nextUid := c.nextUid + 1)
  }

  /** All the writes of a plan, nothing coming between them. */
  function Execute(c: Cluster, plan: Plan): Cluster {
    match plan
    case Nothing => c
    case DeleteObsolete(names) => c.(jobs := MarkDeleting(c.jobs, names))
    case AcceptRetry(Some(name), _, put) => DeleteBackground(c, name).(state := Some(put))
    case AcceptRetry(None, _, put) => c.(state := Some(put))
    case DeleteStale(name) => DeleteForeground(c, name)
    case Record(put, _, _, _, _) => c.(state := Some(put))
    case NoteFailure(put, _, _) => c.(state := Some(put))
    case Launch(name, template) => CreateJob(c, name, template)
  }

  function MarkDeleting(jobs: map<string, Job>, names: set<string>): map<string, Job> {
    map n | n in jobs :: if n in names then jobs[n].(deleting := true) else jobs[n]
  }

  lemma MarkOneMore(jobs: map<string, Job>, names: set<string>, name: string)
    requires name in jobs
    ensures MarkDeleting(jobs, names)[name := jobs[name].(deleting := true)] == MarkDeleting(jobs, names + {name})
    ensures jobs[name].deleting ==> MarkDeleting(jobs, names) == MarkDeleting(jobs, names + {name})
  {
  }

  /** Marks every owned Job of another name for deletion and says whether there was one. */
  method DeleteObsoleteJobs(jobs: map<string, Job>, desired: string) returns (waiting: bool, marked: map<string, Job>)
    ensures waiting <==> ObsoleteJobs(jobs, desired) != {}
    ensures marked == MarkDeleting(jobs, ObsoleteJobs(jobs, desired))
  {
    ghost var obsolete := ObsoleteJobs(jobs, desired);
    var remaining := jobs.Keys;
    waiting, marked := false, jobs;
    assert obsolete - remaining == {};
    while remaining != {}
      invariant remaining <= jobs.Keys
      invariant marked == MarkDeleting(jobs, obsolete - remaining)
      invariant waiting <==> obsolete - remaining != {}
      decreases remaining
    {
      var name :| name in remaining;
      ghost var before := obsolete - remaining;
      remaining := remaining - {name};
      if name != desired && jobs[name].owned {
        waiting := true;
        assert obsolete - remaining == before + {name};
        MarkOneMore(jobs, before, name);
        if !jobs[name].deleting {
          marked := marked[name := jobs[name].(deleting := true)];
        }
      } else {
        assert obsolete - remaining == before;
      }
    }
    assert obsolete - remaining == obsolete;
  }

  /** The controller, holding the API server's objects it reads and writes. */
  class SchemaController {
    var cluster: Cluster

    constructor (cluster: Cluster)
      ensures this.cluster == cluster
    {
      this.cluster := cluster;
    }

    /** One uninterrupted reconcile: the stages, in order. */
    method Reconcile()
      modifies this
      ensures cluster == Execute(old(cluster), Decide(old(cluster)))
    {
      if Settled(cluster) { return; }
      var name, desired := JobName(cluster.target), Render(cluster.target, cluster.spec, IncludeFixtures(cluster));
      var value := TrimSpace(cluster.spec.retryAnnotation);
      var waiting, jobs := DeleteObsoleteJobs(cluster.jobs, name);
      if waiting {
        cluster := cluster.(jobs := jobs);
        return;
      }
      if RetryDue(cluster, value) {
        AcceptSchemaRetry(name, value);
      } else if name in cluster.jobs {
        ReconcileJob(name, desired);
      } else {
        var podsRemain := PodCleanup();
        if !podsRemain {
          cluster := CreateJob(cluster, name, desired);
        }
      }
    }

    method AcceptSchemaRetry(name: string, value: string)
      modifies this
      ensures cluster == old(cluster).(
        state := Some(RetryState(old(cluster), value)),
        jobs := if name in old(cluster).jobs && old(cluster).jobs[name].status.Failed?
                then old(cluster).jobs - {name} else old(cluster).jobs)
    {
      if name in cluster.jobs && cluster.jobs[name].status.Failed? {
        cluster := DeleteBackground(cluster, name);
      }
      cluster := cluster.(state := Some(RetryState(cluster, value)));
    }

    method ReconcileJob(name: string, desired: Template)
      requires name in cluster.jobs
      modifies this
      ensures cluster == Execute(old(cluster), DecideForJob(old(cluster), name, desired))
    {
      var job := cluster.jobs[name];
      var drifted := TemplateDrifted(job.template, desired);
      if drifted {
        cluster := DeleteForeground(cluster, name);
      } else if job.status.Succeeded? {
        cluster := cluster.(state := Some(AppliedState(cluster, job)));
      } else if job.status.Failed? && !TerminalFailure(cluster) {
        cluster := cluster.(state := Some(FailureState(cluster)));
      }
    }

    method PodCleanup() returns (remain: bool)
      ensures remain <==> JobPodsRemain(cluster)
    {
      var remaining := cluster.pods.Keys;
      while remaining != {}
        invariant remaining <= cluster.pods.Keys
        invariant forall uid | uid in cluster.pods && uid !in remaining :: cluster.pods[uid].controllerJob.None?
        decreases remaining
      {
        var uid :| uid in remaining;
        if cluster.pods[uid].controllerJob.Some? { return true; }
        remaining := remaining - {uid};
      }
      return false;
    }
  }

  /** The recorded version, if any, is blank, the target's or its predecessor's, and is not the target's as it stands. */
  predicate Upgradable(c: Cluster) {
    c.state.Some? ==>
      var recorded := c.state.value.appliedVersion;
      var value := TrimSpace(recorded);
      && recorded != c.target.version
      && (value == "" || value == c.target.version || (c.target.previousVersion != "" && value == c.target.previousVersion))
  }

  /** A Job of another name: if the schema controls it, it is marked for deletion and nothing else
      happens; otherwise it is never touched.  A schema that cannot be migrated is left alone. */
  lemma {:induction false} OtherJobExactly(c: Cluster, n: string)
    requires n in c.jobs && n != JobName(c.target)
    ensures var after := Execute(c, Decide(c));
      if !Upgradable(c) then after == c
      else if c.jobs[n].owned then
        after == c.(jobs := after.jobs) && after.jobs.Keys == c.jobs.Keys && after.jobs[n] == c.jobs[n].(deleting := true)
      else n in after.jobs && after.jobs[n] == c.jobs[n]
  {
    assert c.jobs[n].owned <==> n in ObsoleteJobs(c.jobs, JobName(c.target));
  }

  /** A schema that can be migrated and has nothing in its way is: one reconcile creates the Job of the target's render. */
  lemma UpgradeLaunches(c: Cluster)
    requires Upgradable(c)
    requires forall n | n in c.jobs :: n != JobName(c.target) && !c.jobs[n].owned
    requires forall uid | uid in c.pods :: c.pods[uid].controllerJob.None?
    requires var value := TrimSpace(c.spec.retryAnnotation);
      value == "" || StateOf(c).retryDone == value || StateOf(c).failureCount.None? || StateOf(c).failureCount.value < 3 ||
      StateOf(c).failedVersion != c.target.version || StateOf(c).failedGeneration != Some(c.spec.generation)
    ensures Execute(c, Decide(c)) == c.(nextUid := c.nextUid + 1, jobs := c.jobs[JobName(c.target) :=
      Job(c.nextUid, true, Render(c.target, c.spec, c.spec.applyFixtures && TrimSpace(StateOf(c).appliedVersion) == ""), false, Active)])
  {
    assert ObsoleteJobs(c.jobs, JobName(c.target)) == {};
  }

  /** After three failures of this version and generation, a new retry value is accepted: it is
      marked consumed, the failures are forgotten, and the failed Job goes. */
  lemma RetryIsAccepted(c: Cluster)
    requires Upgradable(c) && forall n | n in c.jobs && n != JobName(c.target) :: !c.jobs[n].owned
    requires var value, state := TrimSpace(c.spec.retryAnnotation), StateOf(c);
      value != "" && value != state.retryDone && state.failureCount.Some? && state.failureCount.value >= 3 &&
      state.failedVersion == c.target.version && state.failedGeneration == Some(c.spec.generation)
    ensures var after := Execute(c, Decide(c)); var state := StateOf(after);
      && state.retryDone == TrimSpace(c.spec.retryAnnotation) && state.failureCount.None?
      && state.appliedVersion == StateOf(c).appliedVersion && state.fixturesApplied == StateOf(c).fixturesApplied
      && (JobName(c.target) in c.jobs && c.jobs[JobName(c.target)].status.Failed? ==> JobName(c.target) !in after.jobs)
  {
    assert ObsoleteJobs(c.jobs, JobName(c.target)) == {};
  }

  /** The counter counts reconciles that see a failed Job, not Jobs: one failed Job,
      left alone, blocks the migration after three reconciles without a second launch. */
  lemma OneFailedJobBlocks(c: Cluster)
    requires c.state.None? && JobName(c.target) in c.jobs && ObsoleteJobs(c.jobs, JobName(c.target)) == {}
    requires c.target.version != ""
    requires c.jobs[JobName(c.target)].status.Failed?
    requires SameRender(c.jobs[JobName(c.target)].template, Render(c.target, c.spec, c.spec.applyFixtures))
    ensures var c1 := Execute(c, Decide(c));
            var c2 := Execute(c1, Decide(c1));
            var c3 := Execute(c2, Decide(c2));
            TerminalFailure(c3) && c3.jobs == c.jobs && c3.pods == c.pods && !TerminalFailure(c2)
  {
    var c1 := FailOnce(c);
    var c2 := FailOnce(c1);
    var c3 := FailOnce(c2);
  }

  lemma FailOnce(c: Cluster) returns (c': Cluster)
    requires !HasAppliedVersion(c.state) && StateOf(c).appliedVersion == "" && !TerminalFailure(c)
    requires JobName(c.target) in c.jobs && ObsoleteJobs(c.jobs, JobName(c.target)) == {}
    requires c.target.version != ""
    requires c.jobs[JobName(c.target)].status.Failed?
    requires SameRender(c.jobs[JobName(c.target)].template, Render(c.target, c.spec, c.spec.applyFixtures))
    ensures c' == Execute(c, Decide(c)) == c.(state := Some(FailureState(c)))
    ensures !HasAppliedVersion(c'.state) && ObsoleteJobs(c'.jobs, JobName(c.target)) == {}
  {
    c' := Execute(c, Decide(c));
    assert ObsoleteJobs(c'.jobs, JobName(c.target)) == ObsoleteJobs(c.jobs, JobName(c.target));
  }

  /** An accepted retry is effective: once the failed Job's Pods are gone the next
      reconcile launches the current render. */
  lemma RetryUnblocks(c: Cluster, c': Cluster)
    requires !Settled(c) && ObsoleteJobs(c.jobs, JobName(c.target)) == {}
    requires RetryDue(c, TrimSpace(c.spec.retryAnnotation))
    requires JobName(c.target) in c.jobs ==> c.jobs[JobName(c.target)].status.Failed?
    requires c' == Execute(c, Decide(c))
    ensures !TerminalFailure(c')
    ensures !JobPodsRemain(c') ==> Decide(c') == Launch(JobName(c.target), Render(c.target, c.spec, IncludeFixtures(c)))
  {
    var name := JobName(c.target);
    assert name !in c'.jobs;
    assert ObsoleteJobs(c'.jobs, name) == {} by {
      forall n | n in ObsoleteJobs(c'.jobs, name) ensures n in ObsoleteJobs(c.jobs, name) {}
    }
  }
}
