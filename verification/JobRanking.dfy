/** From the Jobs of a snapshot to the ingest runs they refer to: which Jobs count, how
    they are ranked, and which names are kept. */
module JobRanking {
  import opened Base
  import opened RunCache
  import Sorting

  datatype Scope = Scope(namespace: string, instance: string)

  datatype OwnerReference = OwnerReference(controller: bool, apiVersion: string, kind: string, name: string, uid: string)

  /** `ends` marks the Complete and Failed conditions. */
  datatype Condition = Condition(ends: bool, holds: bool)

  datatype Job = Job(
    name: string, uid: string, namespace: string, instance: string, owners: seq<OwnerReference>,
    active: int, conditions: seq<Condition>, completedAt: Option<int>, startedAt: Option<int>, createdAt: int)

  const GROUP_VERSION := "tamoss.livewyer.io/v1alpha1"
  const INGEST_RUN := "IngestRun"

  // ----- The controlling owner

  function Controllers(owners: seq<OwnerReference>): seq<OwnerReference> {
    if owners == [] then []
    else
      var before, last := Controllers(owners[..|owners| - 1]), owners[|owners| - 1];
      if last.controller then before + [last] else before
  }

  /** The one controlling owner, if there is exactly one and it has a UID. */
  function ControllerOf(owners: seq<OwnerReference>): Option<OwnerReference> {
    var controllers := Controllers(owners);
    if |controllers| == 1 && controllers[0].uid != "" then Some(controllers[0]) else None
  }

  lemma {:induction false} ControllersGrow(owners: seq<OwnerReference>, i: nat)
    requires i <= |owners|
    ensures |Controllers(owners[..i])| <= |Controllers(owners)|
  {
    if i < |owners| {
      assert owners[..|owners| - 1][..i] == owners[..i];
      ControllersGrow(owners[..|owners| - 1], i);
    } else {
      assert owners[..i] == owners;
    }
  }

  method ControllerOwnerIdentity(owners: seq<OwnerReference>) returns (owner: Option<OwnerReference>)
    ensures owner == ControllerOf(owners)
  {
    var controller: Option<OwnerReference> := None;
    for i := 0 to |owners|
      invariant Controllers(owners[..i]) == if controller.None? then [] else [controller.value]
    {
      assert owners[..i + 1][..i] == owners[..i];
      if owners[i].controller {
        if controller.Some? {
          ControllersGrow(owners, i + 1);
          return None;
        }
        controller := Some(owners[i]);
      }
    }
    assert owners[..|owners|] == owners;
    if controller.None? || controller.value.uid == "" { return None; }
    return controller;
  }

  // ----- Candidates and their rank

  datatype Candidate = Candidate(priority: int, observed: int, job: string, owner: Id)

  /** Active Jobs first, ended ones last. */
  function Priority(job: Job): int {
    if job.active > 0 then 0
    else if exists i | 0 <= i < |job.conditions| :: job.conditions[i].holds && job.conditions[i].ends then 2
    else 1
  }

  function LastObserved(job: Job): int {
    if job.completedAt.Some? then job.completedAt.value
    else if job.startedAt.Some? then job.startedAt.value
    else job.createdAt
  }

  function CandidateOf(scope: Scope, job: Job): Option<Candidate> {
    var owner := ControllerOf(job.owners);
    if job.uid == "" || job.instance != scope.instance || owner.None? then None
    else if owner.value.apiVersion != GROUP_VERSION || owner.value.kind != INGEST_RUN then None
    else if job.namespace != scope.namespace || owner.value.name == "" then None
    else Some(Candidate(Priority(job), LastObserved(job), job.name, Id(owner.value.name, owner.value.uid)))
  }

  lemma {:induction false} SoleController(owners: seq<OwnerReference>, i: nat)
    requires i < |owners| && owners[i].controller && forall j | 0 <= j < |owners| && j != i :: !owners[j].controller
    ensures Controllers(owners) == [owners[i]]
  {
    var n := |owners| - 1;
    if i < n {
      SoleController(owners[..n], i);
    } else {
      NoController(owners[..n]);
    }
  }

  lemma {:induction false} NoController(owners: seq<OwnerReference>)
    requires forall j | 0 <= j < |owners| :: !owners[j].controller
    ensures Controllers(owners) == []
  {
    if owners != [] { NoController(owners[..|owners| - 1]); }
  }

  /** A Job of the scope whose one controlling owner is an ingest run counts, under that owner. */
  lemma {:induction false} OwnedJobCounts(scope: Scope, job: Job, i: nat)
    requires job.uid != "" && job.instance == scope.instance && job.namespace == scope.namespace
    requires i < |job.owners| && forall j | 0 <= j < |job.owners| :: job.owners[j].controller <==> j == i
    requires var o := job.owners[i]; o.apiVersion == GROUP_VERSION && o.kind == INGEST_RUN && o.name != "" && o.uid != ""
    ensures var c := CandidateOf(scope, job);
      c.Some? && c.value.job == job.name && c.value.owner == Id(job.owners[i].name, job.owners[i].uid)
  {
    SoleController(job.owners, i);
  }

  predicate Ended(job: Job) {
    exists i | 0 <= i < |job.conditions| :: job.conditions[i].holds && job.conditions[i].ends
  }

  /** Active Jobs rank before inactive ones, open ones before ended ones, and within each of these kinds
      the one completed, or else started, or else created later ranks first. */
  lemma LivelierJobRanksFirst(scope: Scope, a: Job, b: Job)
    requires CandidateOf(scope, a).Some? && CandidateOf(scope, b).Some?
    ensures var first := Ranks(CandidateOf(scope, a).value, CandidateOf(scope, b).value);
      && (a.active > 0 && b.active <= 0 ==> first)
      && (a.active <= 0 && b.active <= 0 && !Ended(a) && Ended(b) ==> first)
      && ((a.active > 0 && b.active > 0) || (a.active <= 0 && b.active <= 0 && Ended(a) == Ended(b)) ==>
            && (a.completedAt.Some? && b.completedAt.Some? && a.completedAt.value > b.completedAt.value ==> first)
            && (a.completedAt.None? && b.completedAt.None? ==>
                  && (a.startedAt.Some? && b.startedAt.Some? && a.startedAt.value > b.startedAt.value ==> first)
                  && (a.startedAt.None? && b.startedAt.None? && a.createdAt > b.createdAt ==> first)))
  {
  }

  function CandidatesOf(scope: Scope, jobs: seq<Job>): seq<Candidate> {
    if jobs == [] then []
    else
      var before, last := CandidatesOf(scope, jobs[..|jobs| - 1]), CandidateOf(scope, jobs[|jobs| - 1]);
      if last.None? then before else before + [last.value]
  }

  /** The order of the snapshot: priority, newest first, Job name, owner name, owner UID. */
  predicate Ranks(a: Candidate, b: Candidate) {
    if a.priority != b.priority then a.priority < b.priority
    else if a.observed != b.observed then a.observed > b.observed
    else if a.job != b.job then TextLess(a.job, b.job)
    else if a.owner.name != b.owner.name then TextLess(a.owner.name, b.owner.name)
    else TextLess(a.owner.uid, b.owner.uid)
  }

  function Ranked(scope: Scope, jobs: seq<Job>): seq<Candidate> {
    Sorting.Sort(Ranks, CandidatesOf(scope, jobs))
  }

  function Owners(candidates: seq<Candidate>): seq<Id> {
    seq(|candidates|, i requires 0 <= i < |candidates| => candidates[i].owner)
  }

  // ----- The rank is a strict total order

  lemma RanksCompares(a: Candidate, b: Candidate)
    ensures Ranks(a, b) ==> !Ranks(b, a)
    ensures Ranks(a, b) || Ranks(b, a) || a == b
  {
    TextOrder(a.job, b.job);
    TextOrder(a.owner.name, b.owner.name);
    TextOrder(a.owner.uid, b.owner.uid);
  }

  lemma {:induction false} RanksTransitive(a: Candidate, b: Candidate, c: Candidate)
    requires Ranks(a, b) && Ranks(b, c)
    ensures Ranks(a, c)
  {
    if TextLess(a.job, b.job) && TextLess(b.job, c.job) { Chain(a.job, b.job, c.job); }
    if TextLess(a.owner.name, b.owner.name) && TextLess(b.owner.name, c.owner.name) {
      Chain(a.owner.name, b.owner.name, c.owner.name);
    }
    if TextLess(a.owner.uid, b.owner.uid) && TextLess(b.owner.uid, c.owner.uid) {
      Chain(a.owner.uid, b.owner.uid, c.owner.uid);
    }
  }

  lemma Chain(a: string, b: string, c: string)
    requires TextLess(a, b) && TextLess(b, c)
    ensures TextLess(a, c) && a != c
  {
    TextTransitive(a, b, c);
    TextOrder(a, c);
  }

  lemma {:induction false} RanksIsTotalOrder()
    ensures Sorting.Order(Ranks) && Sorting.Total(Ranks)
  {
    forall a, b ensures (Ranks(a, b) ==> !Ranks(b, a)) && (Ranks(a, b) || Ranks(b, a) || a == b) { RanksCompares(a, b); }
    forall a, b, c | !Ranks(b, a) && !Ranks(c, b) ensures !Ranks(c, a) {
      RanksCompares(a, b);
      RanksCompares(b, c);
      RanksCompares(a, c);
      if Ranks(a, b) && Ranks(b, c) { RanksTransitive(a, b, c); }
    }
  }

  // ----- The order in which Jobs are listed does not matter

  lemma {:induction false} CandidatesSplit(scope: Scope, a: seq<Job>, b: seq<Job>)
    ensures CandidatesOf(scope, a + b) == CandidatesOf(scope, a) + CandidatesOf(scope, b)
  {
    if b == [] {
      assert a + b == a;
    } else {
      assert (a + b)[..|a + b| - 1] == a + b[..|b| - 1];
      CandidatesSplit(scope, a, b[..|b| - 1]);
    }
  }

  lemma TakenOut(a: seq<Job>, b: seq<Job>, i: nat)
    requires a != [] && i < |b| && multiset(a) == multiset(b) && b[i] == a[|a| - 1]
    ensures multiset(a[..|a| - 1]) == multiset(b[..i] + b[i + 1..])
  {
    assert a == a[..|a| - 1] + [b[i]];
    assert b == b[..i] + [b[i]] + b[i + 1..];
    assert multiset(a[..|a| - 1]) == multiset(a) - multiset{b[i]};
    assert multiset(b[..i] + b[i + 1..]) == multiset(b) - multiset{b[i]};
  }

  /** The candidates of a list are those of the list without one Job, and that Job's. */
  lemma {:induction false} CandidatesWithout(scope: Scope, b: seq<Job>, i: nat)
    requires i < |b|
    ensures multiset(CandidatesOf(scope, b)) ==
      multiset(CandidatesOf(scope, b[..i] + b[i + 1..])) + multiset(CandidatesOf(scope, [b[i]]))
  {
    assert b == b[..i] + [b[i]] + b[i + 1..];
    CandidatesSplit(scope, b[..i] + [b[i]], b[i + 1..]);
    CandidatesSplit(scope, b[..i], [b[i]]);
    CandidatesSplit(scope, b[..i], b[i + 1..]);
  }

  lemma {:induction false} CandidatesPermuted(scope: Scope, a: seq<Job>, b: seq<Job>)
    requires multiset(a) == multiset(b)
    ensures multiset(CandidatesOf(scope, a)) == multiset(CandidatesOf(scope, b))
    decreases |a|
  {
    if a == [] {
      assert |b| == |multiset(a)|;
    } else {
      var n := |a| - 1;
      assert a[n] in multiset(b);
      var i :| 0 <= i < |b| && b[i] == a[n];
      TakenOut(a, b, i);
      CandidatesPermuted(scope, a[..n], b[..i] + b[i + 1..]);
      CandidatesWithout(scope, a, n);
      CandidatesWithout(scope, b, i);
      assert a[..n] + a[n + 1..] == a[..n];
    }
  }

  /** The ranking, and so the selection, does not depend on the order in which Jobs are listed. */
  lemma {:induction false} RankingIgnoresListing(scope: Scope, a: seq<Job>, b: seq<Job>)
    requires multiset(a) == multiset(b)
    ensures Ranked(scope, a) == Ranked(scope, b)
  {
    RanksIsTotalOrder();
    CandidatesPermuted(scope, a, b);
    Sorting.SortOrdered(Ranks, CandidatesOf(scope, a));
    Sorting.SortOrdered(Ranks, CandidatesOf(scope, b));
    Sorting.OrderedUnique(Ranks, Ranked(scope, a), Ranked(scope, b));
  }

  /** Every kept name has a candidate that ranks before all candidates of any name left out. */
  lemma {:induction false} BestRankedKept(scope: Scope, jobs: seq<Job>, kept: string, dropped: string)
    requires var names := Names(Owners(Ranked(scope, jobs))); kept in Kept(names) && dropped in names && dropped !in Kept(names)
    ensures exists c | c in CandidatesOf(scope, jobs) && c.owner.name == kept ::
      forall d | d in CandidatesOf(scope, jobs) && d.owner.name == dropped :: Ranks(c, d)
  {
    var ranked := Ranked(scope, jobs);
    var owners := Owners(ranked);
    RanksIsTotalOrder();
    Sorting.SortOrdered(Ranks, CandidatesOf(scope, jobs));
    KeptAppearFirst(owners, kept, dropped);
    var i :| 0 <= i < |owners| && owners[i].name == kept && forall j | 0 <= j <= i :: owners[j].name != dropped;
    var c := ranked[i];
    assert c in ranked;
    forall d | d in CandidatesOf(scope, jobs) && d.owner.name == dropped ensures Ranks(c, d) {
      assert d in ranked;
      var j :| 0 <= j < |ranked| && ranked[j] == d;
      assert owners[j].name == dropped;
    }
  }

  // ----- The selection

  method CollectCandidates(scope: Scope, jobs: seq<Job>) returns (candidates: seq<Candidate>)
    ensures candidates == CandidatesOf(scope, jobs)
  {
    candidates := [];
    for i := 0 to |jobs|
      invariant candidates == CandidatesOf(scope, jobs[..i])
    {
      assert jobs[..i + 1][..i] == jobs[..i];
      var job := jobs[i];
      if job.uid == "" || job.instance != scope.instance { continue; }
      var owner := ControllerOwnerIdentity(job.owners);
      if owner.None? || owner.value.apiVersion != GROUP_VERSION || owner.value.kind != INGEST_RUN
         || job.namespace != scope.namespace || owner.value.name == "" { continue; }
      candidates := candidates + [Candidate(Priority(job), LastObserved(job), job.name, Id(owner.value.name, owner.value.uid))];
    }
    assert jobs[..|jobs|] == jobs;
  }

  /** The names the snapshot reads, best-ranked first, with every UID referenced under them. */
  method SelectReferences(scope: Scope, jobs: seq<Job>)
    returns (names: seq<string>, uids: map<string, set<string>>, truncated: bool)
    ensures var owners := Owners(Ranked(scope, jobs));
      && names == Kept(Names(owners)) && (truncated <==> |Names(owners)| > MAX_READS)
      && uids.Keys == (set n | n in names) && forall n | n in names :: uids[n] == Uids(owners, n)
  {
    var candidates := CollectCandidates(scope, jobs);
    names, uids, truncated := SelectOwners(Owners(Sorting.Sort(Ranks, candidates)));
  }
}
