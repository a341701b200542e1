/** Every run of the lifecycle record: bootstraps, retention passes cut short by
    crashes at any write, and other controllers moving the lifecycle phase. */
module RetentionRuns {
  import opened Base
  import opened ArtifactRetention
  import opened RetentionPass
  import ArtifactPrefix

  /** Where the Tamoss reconciler is: resting, working through a list taken from the
      record, or between deleting an artifact's objects and recording the outcome. */
  datatype Act =
    | Rest
    | Working(todo: seq<Artifact>, listed: bool)
    | Deleted(a: Artifact, todo: seq<Artifact>, listed: bool, ok: bool)

  /** What happened so far: `owed` holds the artifacts resumed and not since Retained or
      Completed, `superseded` those whose latest restore was replaced before it finished, `erased`
      those whose objects were deleted. */
  datatype Log = Log(
    resumed: set<Identity>, owed: set<Identity>, superseded: set<Identity>, erased: set<Identity>, retained: set<Identity>)

  const NO_LOG := Log({}, {}, {}, {}, {})

  datatype System = System(l: Lifecycle, enabled: bool, act: Act, log: Log)

  datatype Step =
    | Bootstrap(id: Identity)
    | Begin
    | Handle(answers: Answers)
    | Record(saved: bool)
    | Continue
    | Crash
    | Elsewhere(phase: LifecyclePhase, lastHibernate: Option<string>, enabled: bool)

  predicate Init(s: System) {
    s == System(Lifecycle(Unset, None, None, []), s.enabled, Rest, NO_LOG)
  }

  // ----- Steps

  /** A hibernated or failed instance is woken from its latest hibernation. */
  predicate Waking(l: Lifecycle) {
    l.lastHibernate.Some? && (l.phase.Hibernated? || l.phase.Failed?)
  }

  predicate MayBootstrap(s: System) {
    s.act.Rest? && !s.enabled && (s.l.resolved.None? || Waking(s.l))
  }

  predicate Gated(s: System) {
    s.enabled || s.l.phase.Hibernating? || s.l.phase.Hibernated?
  }

  predicate Possible(s: System, step: Step) {
    match step
    case Bootstrap(_) => MayBootstrap(s)
    case Begin => s.act.Rest? && !Gated(s)
    case Handle(_) => s.act.Working? && s.act.todo != []
    case Record(_) => s.act.Deleted?
    case Continue => s.act.Working? && s.act.todo == []
    case Crash => true
    case Elsewhere(_, _, _) => true
  }

  /** The bootstrap replaces a restore that is still open by another artifact. */
  predicate Supersedes(l: Lifecycle, id: Identity) {
    l.resolved.Some? && l.resolved.value.resumedAt.None? && l.resolved.value.id != id
  }

  function DoBootstrap(s: System, id: Identity): System {
    s.(l := ResolveRestore(s.l, id),
       log := s.log.(superseded := s.log.superseded - {id} + if Supersedes(s.l, id) then {s.l.resolved.value.id} else {}))
  }

  function DoBegin(s: System): System {
    s.(act := if s.l.resolved.None? then Working(s.l.pending, true) else Working([s.l.resolved.value], false))
  }

  function DoNote(s: System, id: Identity, phase: CleanupPhase, act: Act): System {
    s.(l := RecordCleanup(s.l, id, phase), act := act,
       log := s.log.(owed := if Finished(phase) then s.log.owed - {id} else s.log.owed,
                     retained := if phase.Retained? then s.log.retained + {id} else s.log.retained))
  }

  function DoResume(s: System, now: int, act: Act): System {
    var done := if s.l.resolved.Some? then {s.l.resolved.value.id} else {};
    s.(l := MarkResumed(s.l, now), act := act, log := s.log.(resumed := s.log.resumed + done, owed := s.log.owed + done))
  }

  function DoHandle(s: System, w: Answers): System
    requires s.act.Working? && s.act.todo != []
  {
    var a, rest := s.act.todo[0], Working(s.act.todo[1..], s.act.listed);
    match Judge(a, w)
    case Skip => s.(act := rest)
    case Abort => s.(act := Rest)
    case Resume => if w.saved then DoResume(s, w.now, rest) else s.(act := Rest)
    case Note(phase, _) => if w.saved then DoNote(s, a.id, phase, rest) else s.(act := Rest)
    case Delete(_) =>
      s.(act := Deleted(a, s.act.todo[1..], s.act.listed, w.deleted),
         log := s.log.(erased := if w.deleted then s.log.erased + {a.id} else s.log.erased))
  }

  function DoRecord(s: System, saved: bool): System
    requires s.act.Deleted?
  {
    if !saved then s.(act := Rest)
    else DoNote(s, s.act.a.id, if s.act.ok then Completed else Scheduled, Working(s.act.todo, s.act.listed))
  }

  /** Handling one artifact without interruption. */
  function Handled(s: System, w: Answers): System
    requires s.act.Working? && s.act.todo != []
  {
    var t := DoHandle(s, w);
    if t.act.Deleted? then DoRecord(t, w.saved) else t
  }

  /** Its steps together have the effect of one reconcile on the artifact. */
  lemma UninterruptedHandle(s: System, w: Answers)
    requires s.act.Working? && s.act.todo != []
    ensures var a, t := s.act.todo[0], Handled(s, w); var e := EffectOf(a, w);
      && t.l == Affect(s.l, a.id, e)
      && t.act == (if e.Stop? then Rest else Working(s.act.todo[1..], s.act.listed))
      && (e.Noted? && e.phase.Completed? ==> a.id in t.log.erased)
  {
  }

  function DoContinue(s: System): System
    requires s.act.Working?
  {
    s.(act := if s.act.listed then Rest else Working(s.l.pending, true))
  }

  /** Handling one list without interruption. */
  function WorkedOff(s: System, answers: Artifact -> Answers): (t: System)
    requires s.act.Working?
    ensures t.act.Rest? || t.act == Working([], s.act.listed)
    decreases |s.act.todo|
  {
    if s.act.todo == [] then s
    else
      var t := Handled(s, answers(s.act.todo[0]));
      if t.act.Rest? then t else assert t.act == Working(s.act.todo[1..], s.act.listed); WorkedOff(t, answers)
  }

  lemma {:induction false} UninterruptedSweep(s: System, answers: Artifact -> Answers, wait: nat)
    requires s.act.Working?
    ensures var t, r := WorkedOff(s, answers), Sweep(s.l, s.act.todo, Effects(answers), wait);
      t.l == r.record && t.act == if r.ok then Working([], s.act.listed) else Rest
    decreases |s.act.todo|
  {
    if s.act.todo != [] {
      var a := s.act.todo[0];
      UninterruptedHandle(s, answers(a));
      var t := Handled(s, answers(a));
      if !t.act.Rest? { UninterruptedSweep(t, answers, Sooner(wait, WaitOf(EffectOf(a, answers(a))))); }
    }
  }

  lemma SweepOne(l: Lifecycle, a: Artifact, effect: Artifact -> Effect, wait: nat)
    ensures var r, e := Sweep(l, [a], effect, wait), effect(a);
      r.ok == !e.Stop? && r.record == if e.Stop? then l else Affect(l, a.id, e)
  {
    assert [a][1..] == [];
  }

  /** A whole pass without interruption. */
  function PassedOver(s: System, answers: Artifact -> Answers): System {
    var first := WorkedOff(DoBegin(s), answers);
    if first.act.Rest? || first.act.listed then first else WorkedOff(DoContinue(first), answers)
  }

  /** The steps of an uninterrupted pass lead to the record the controller's pass computes. */
  lemma {:induction false} UninterruptedPass(s: System, answers: Artifact -> Answers)
    ensures var t, r := PassedOver(s, answers), Pass(s.l, Effects(answers));
      t.l == r.record && t.act == if r.ok then Working([], true) else Rest
  {
    var begun := DoBegin(s);
    if s.l.resolved.None? {
      UninterruptedSweep(begun, answers, 0);
    } else {
      var a := s.l.resolved.value;
      var e := EffectOf(a, answers(a));
      UninterruptedSweep(begun, answers, 0);
      SweepOne(s.l, a, Effects(answers), 0);
      var first := WorkedOff(begun, answers);
      if !e.Stop? { UninterruptedSweep(DoContinue(first), answers, WaitOf(e)); }
    }
  }

  function After(s: System, step: Step): System
    requires Possible(s, step)
  {
    match step
    case Bootstrap(id) => DoBootstrap(s, id)
    case Begin => DoBegin(s)
    case Handle(w) => DoHandle(s, w)
    case Record(saved) => DoRecord(s, saved)
    case Continue => DoContinue(s)
    case Crash => s.(act := Rest)
    case Elsewhere(phase, lastHibernate, enabled) =>
      s.(l := s.l.(phase := phase, lastHibernate := lastHibernate), enabled := enabled)
  }

  predicate Follows(s: System, step: Step, t: System) {
    Possible(s, step) && t == After(s, step)
  }

  ghost predicate IsRun(run: seq<System>, steps: seq<Step>) {
    && |run| == |steps| + 1 && Init(run[0])
    && forall i, j | 0 <= i < j < |run| && j == i + 1 :: Follows(run[i], steps[i], run[j])
  }

  // ----- The invariant

  /** The list in hand still mirrors the record. */
  ghost predicate Mirrors(l: Lifecycle, todo: seq<Artifact>, listed: bool) {
    if listed then Unique(todo) && forall a | a in todo :: a in l.pending
    else todo == [] || (l.resolved.Some? && todo == [l.resolved.value])
  }

  predicate Recorded(l: Lifecycle, a: Artifact, listed: bool) {
    if listed then a in l.pending else l.resolved == Some(a)
  }

  ghost predicate ActGood(s: System) {
    match s.act
    case Rest => true
    case Working(todo, listed) => Mirrors(s.l, todo, listed)
    case Deleted(a, todo, listed, ok) =>
      && Mirrors(s.l, todo, listed) && Recorded(s.l, a, listed) && (ok ==> a.id in s.log.erased)
      && a.resumedAt.Some? && !CleanupTerminal(a.cleanup)
      && (if listed then a.id !in Ids(todo) else todo == [])
  }

  predicate Outstanding(l: Lifecycle, id: Identity) {
    id in Ids(l.pending) || (l.resolved.Some? && l.resolved.value.id == id &&
                             l.resolved.value.resumedAt.Some? && !Finished(l.resolved.value.cleanup))
  }

  /** The restore from this artifact has been resolved and has not finished. */
  predicate Open(l: Lifecycle, id: Identity) {
    l.resolved.Some? && l.resolved.value.id == id && l.resolved.value.resumedAt.None?
  }

  /** The record carries exactly the cleanup that is owed: what it lists is owed, and what
      is owed is listed or being restored again, unless it was superseded. */
  ghost predicate Conserves(l: Lifecycle, owed: set<Identity>, superseded: set<Identity>) {
    && (forall id | Outstanding(l, id) :: id in owed)
    && (forall id | id in owed :: id in superseded || Outstanding(l, id) || Open(l, id))
  }

  /** Cleanup ends only by the policy to retain, or with the objects deleted. */
  predicate Accounted(l: Lifecycle, log: Log) {
    && log.resumed <= log.owed + log.erased + log.retained
    && (l.resolved.Some? && l.resolved.value.cleanup.Completed? ==> l.resolved.value.id in log.erased)
    && (l.resolved.Some? && l.resolved.value.cleanup.Retained? ==> l.resolved.value.id in log.retained)
  }

  ghost predicate Inv(s: System) {
    WellFormed(s.l) && ActGood(s) && Conserves(s.l, s.log.owed, s.log.superseded) && Accounted(s.l, s.log)
  }

  // ----- Each step keeps it

  lemma {:induction false} BootstrapConserves(l: Lifecycle, id: Identity, owed: set<Identity>, superseded: set<Identity>)
    requires WellFormed(l) && Conserves(l, owed, superseded)
    ensures Conserves(ResolveRestore(l, id), owed, superseded - {id} + if Supersedes(l, id) then {l.resolved.value.id} else {})
  {
    WithoutIds(l.pending, id);
    if CarriesOver(l.resolved, id) { IdsAppend(Without(l.pending, id), l.resolved.value); }
    assert forall x :: Outstanding(ResolveRestore(l, id), x) <==>
      x != id && (x in Ids(l.pending) || (CarriesOver(l.resolved, id) && x == l.resolved.value.id));
  }

  /** A bootstrap loses no owed cleanup, whatever was owed, if and only if it does
      not replace an open restore by another artifact. */
  lemma {:induction false} BootstrapConservesExactly(l: Lifecycle, id: Identity)
    requires WellFormed(l)
    ensures (forall owed | Conserves(l, owed, {}) :: Conserves(ResolveRestore(l, id), owed, {})) <==> !Supersedes(l, id)
  {
    forall owed | Conserves(l, owed, {}) ensures Supersedes(l, id) || Conserves(ResolveRestore(l, id), owed, {}) {
      BootstrapConserves(l, id, owed, {});
    }
    if Supersedes(l, id) {
      var owed := Ids(l.pending) + {l.resolved.value.id};
      assert Conserves(l, owed, {});
      ResolveRestoreKeeps(l, id);
      assert l.resolved.value.id !in Tracked(ResolveRestore(l, id));
    }
  }

  lemma InHand(l: Lifecycle, todo: seq<Artifact>, listed: bool)
    requires Mirrors(l, todo, listed) && todo != []
    ensures Mirrors(l, todo[1..], listed) && Recorded(l, todo[0], listed)
    ensures if listed then todo[0].id !in Ids(todo[1..]) else todo[1..] == []
  {
    assert forall a | a in todo[1..] :: a in todo;
  }

  lemma {:induction false} SettleOthers(pending: seq<Artifact>, id: Identity, phase: CleanupPhase, a: Artifact)
    requires a in pending && a.id != id
    ensures a in Settle(pending, id, phase)
  {
    if pending[0] != a {
      assert pending == [pending[0]] + pending[1..];
      if pending[0].id != id { SettleOthers(pending[1..], id, phase, a); }
    }
  }

  lemma {:induction false} NoteKeeps(s: System, a: Artifact, phase: CleanupPhase, todo: seq<Artifact>, listed: bool)
    requires WellFormed(s.l) && Conserves(s.l, s.log.owed, s.log.superseded) && Accounted(s.l, s.log)
    requires Recorded(s.l, a, listed) && a.resumedAt.Some? && !Finished(a.cleanup) && (phase.Completed? ==> a.id in s.log.erased)
    requires Mirrors(s.l, todo, listed) && if listed then a.id !in Ids(todo) else todo == []
    ensures Inv(DoNote(s, a.id, phase, Working(todo, listed)))
  {
    RecordCleanupKeeps(s.l, a.id, phase);
    SettleIds(s.l.pending, a.id, phase);
    if listed {
      assert a.id in Ids(s.l.pending);
      forall b | b in todo ensures b in RecordCleanup(s.l, a.id, phase).pending {
        assert b.id in Ids(todo);
        SettleOthers(s.l.pending, a.id, phase, b);
      }
    }
  }

  lemma {:induction false} ResumeKeeps(s: System, now: int)
    requires WellFormed(s.l) && Conserves(s.l, s.log.owed, s.log.superseded) && Accounted(s.l, s.log)
    requires s.l.resolved.Some? && !Finished(s.l.resolved.value.cleanup)
    ensures Inv(DoResume(s, now, Working([], false)))
  {
  }

  lemma {:induction false} HandleKeeps(s: System, w: Answers)
    requires Inv(s) && s.act.Working? && s.act.todo != []
    ensures Inv(DoHandle(s, w))
  {
    var a, listed := s.act.todo[0], s.act.listed;
    InHand(s.l, s.act.todo, listed);
    match Judge(a, w) {
      case Resume => ResumeKeeps(s, w.now);
      case Note(phase, _) => NoteKeeps(s, a, phase, s.act.todo[1..], listed);
      case _ =>
    }
  }

  lemma {:induction false} StepKeeps(s: System, step: Step)
    requires Inv(s) && Possible(s, step)
    ensures Inv(After(s, step))
  {
    match step {
      case Bootstrap(id) =>
        ResolveRestoreKeeps(s.l, id);
        BootstrapConserves(s.l, id, s.log.owed, s.log.superseded);
      case Handle(w) => HandleKeeps(s, w);
      case Record(saved) =>
        NoteKeeps(s, s.act.a, if s.act.ok then Completed else Scheduled, s.act.todo, s.act.listed);
      case _ =>
    }
  }

  lemma {:induction false} RunInv(run: seq<System>, steps: seq<Step>, i: nat)
    requires IsRun(run, steps) && i < |run|
    ensures Inv(run[i])
  {
    if i > 0 {
      RunInv(run, steps, i - 1);
      assert Follows(run[i - 1], steps[i - 1], run[i]);
      StepKeeps(run[i - 1], steps[i - 1]);
    }
  }

  // ----- Theorems

  /** No identity is ever tracked twice and everything pending has been resumed. */
  lemma {:induction false} IdentitiesUnique(run: seq<System>, steps: seq<Step>, i: nat)
    requires IsRun(run, steps) && i < |run|
    ensures WellFormed(run[i].l)
  {
    RunInv(run, steps, i);
  }

  /** From the moment an artifact's objects are deleted until the outcome is recorded, the
      artifact is tracked, has been resumed, and is not the source of an open restore. */
  lemma {:induction false} NeverDeletesOpenRestore(run: seq<System>, steps: seq<Step>, i: nat)
    requires IsRun(run, steps) && i < |run| && run[i].act.Deleted?
    ensures var a, l := run[i].act.a, run[i].l; a.id in Tracked(l) && a.resumedAt.Some? && !Open(l, a.id)
  {
    RunInv(run, steps, i);
    var a := run[i].act.a;
    if run[i].act.listed { assert a.id in Ids(run[i].l.pending); }
  }

  /** Objects are deleted only for a recorded artifact that was resumed, under a policy that
      asks for it, and under a time-to-live that fits in 64 bits of nanoseconds only once it
      has elapsed. */
  lemma {:induction false} DeletesOnlyWhenDue(run: seq<System>, steps: seq<Step>, i: nat, j: nat)
    requires IsRun(run, steps) && j < |run| && j == i + 1 && steps[i].Handle? && run[j].act.Deleted?
    ensures var a, w := run[j].act.a, steps[i].answers;
      && Recorded(run[i].l, a, run[j].act.listed) && a.resumedAt.Some? && !CleanupTerminal(a.cleanup)
      && (FitsClock(w.backend) ==> DueUnder(w.backend, a.resumedAt.value, w.now))
  {
    RunInv(run, steps, j);
    assert Follows(run[i], steps[i], run[j]);
    var a, w := run[i].act.todo[0], steps[i].answers;
    if FitsClock(w.backend) { DeletesExactlyWhenDue(a, w); }
  }

  /** Retention work is conserved: an artifact that was resumed is tracked in every later
      state, or has since been Retained by policy or had its objects deleted, unless its
      restore was superseded; and everything outstanding in the record is owed. */
  lemma {:induction false} RetentionConserved(run: seq<System>, steps: seq<Step>, i: nat)
    requires IsRun(run, steps) && i < |run|
    ensures var log := run[i].log; log.resumed <= Tracked(run[i].l) + log.superseded + log.erased + log.retained
    ensures run[i].log.owed <= Tracked(run[i].l) + run[i].log.superseded
    ensures forall id | Outstanding(run[i].l, id) :: id in run[i].log.owed
  {
    RunInv(run, steps, i);
  }

  lemma {:induction false} NeverSuperseded(run: seq<System>, steps: seq<Step>, i: nat)
    requires IsRun(run, steps) && i < |run|
    requires forall k | 0 <= k < i :: steps[k].Bootstrap? ==> !Supersedes(run[k].l, steps[k].id)
    ensures run[i].log.superseded == {} && run[i].log.owed <= Tracked(run[i].l)
  {
    RunInv(run, steps, i);
    if i > 0 {
      NeverSuperseded(run, steps, i - 1);
      assert Follows(run[i - 1], steps[i - 1], run[i]);
    }
  }

  /** The prefix deleted for one accepted manifest key reaches another's stored manifest exactly
      when the other's root is the same path or lies beneath it, and its key does not begin with
      white space, which only the deleted prefix is trimmed of. */
  lemma {:induction false} DeletionReach(x: Identity, y: Identity, p: seq<string>, q: seq<string>)
    requires ArtifactPrefix.IsRootOf(p, x.manifestKey) && ArtifactPrefix.IsRootOf(q, y.manifestKey)
    ensures DeleteVerdict(x).Delete? && y.manifestKey != ""
    ensures DeleteVerdict(x).prefix <= y.manifestKey <==> p <= q && !IsSpace(y.manifestKey[0])
  {
    ArtifactPrefix.SafePathAccepted(x.manifestKey, p);
    ArtifactPrefix.CoversStored(p, x.manifestKey, q, y.manifestKey);
  }

  /** In every run, objects being deleted belong to another artifact than the open restore, and
      reach its manifest exactly when its root is the same path or lies beneath the deleted one. */
  lemma {:induction false} OpenRestoreReached(
    run: seq<System>, steps: seq<Step>, i: nat, open: Identity, p: seq<string>, q: seq<string>)
    requires IsRun(run, steps) && i < |run| && run[i].act.Deleted? && Open(run[i].l, open)
    requires ArtifactPrefix.IsRootOf(p, run[i].act.a.id.manifestKey) && ArtifactPrefix.IsRootOf(q, open.manifestKey)
    ensures run[i].act.a.id != open && open.manifestKey != ""
    ensures DeleteVerdict(run[i].act.a.id).Delete? &&
      (DeleteVerdict(run[i].act.a.id).prefix <= open.manifestKey <==> p <= q && !IsSpace(open.manifestKey[0]))
  {
    NeverDeletesOpenRestore(run, steps, i);
    DeletionReach(run[i].act.a.id, open, p, q);
  }

  function Last(run: seq<System>): System
    requires run != []
  {
    run[|run| - 1]
  }

  lemma Extend(run: seq<System>, steps: seq<Step>, step: Step) returns (longer: seq<System>, more: seq<Step>)
    requires IsRun(run, steps) && Possible(Last(run), step)
    ensures IsRun(longer, more) && Last(longer) == After(Last(run), step)
  {
    longer, more := run + [After(Last(run), step)], steps + [step];
    assert longer[0] == run[0];
    forall i, j | 0 <= i < j < |longer| && j == i + 1
      ensures Follows(longer[i], more[i], longer[j])
    {
      assert longer[i] == run[i];
      if j < |run| { assert longer[j] == run[j] && more[i] == steps[i] && Follows(run[i], steps[i], run[j]); }
    }
  }

  /** Without that condition conservation fails: an artifact resumed once, restored again,
      and replaced while that second restore is open, is no longer tracked. */
  lemma {:induction false} CanLoseCleanup(a: Identity, b: Identity) returns (run: seq<System>, steps: seq<Step>)
    requires a != b
    ensures IsRun(run, steps) && a in Last(run).log.owed && a !in Tracked(Last(run).l)
  {
    var first, second := Elsewhere(Hibernated, Some("first"), false), Elsewhere(Hibernated, Some("second"), false);
    run, steps := [System(Lifecycle(Unset, None, None, []), false, Rest, NO_LOG)], [];
    run, steps := Extend(run, steps, first);
    run, steps := Extend(run, steps, Bootstrap(a));
    run, steps := Extend(run, steps, Begin);
    run, steps := Extend(run, steps, Handle(Answers(0, Ready, Missing, false, true)));
    run, steps := Extend(run, steps, Crash);
    run, steps := Extend(run, steps, first);
    run, steps := Extend(run, steps, Bootstrap(a));
    run, steps := Extend(run, steps, second);
    run, steps := Extend(run, steps, Bootstrap(b));
  }
}
