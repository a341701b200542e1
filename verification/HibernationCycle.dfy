/** Spec-driven hibernation: one numbered operation per cycle, created and recorded in
    two writes, aborted when hibernation is switched off again. */
module HibernationCycle {
  import opened Base

  const MAX32 := 0x7fff_ffff

  /** The cycle counter is a signed 32-bit number. */
  function NextCycle(cycle: int): int {
    if cycle == MAX32 then -MAX32 - 1 else cycle + 1
  }

  datatype Phase = Unset | Running | Hibernating | Hibernated | Resuming | Failed

  /** Names of the form the driver gives its operations, and all others. */
  datatype Name = Cycle(number: int) | Other(text: string)

  /** `ours` when this Tamoss controls the operation, that is, when the driver created it. */
  datatype Operation = Operation(ours: bool, terminal: bool, deleting: bool)

  datatype Cluster = Cluster(
    enabled: bool, destination: bool, phase: Phase, cycle: int,
    active: Option<Name>, operations: map<Name, Operation>)

  datatype Plan = Nothing | CreateAndRecord(number: int) | RecordOnly(number: int) | Remove(name: Name)

  predicate InFlight(c: Cluster, name: Name) {
    name in c.operations && !c.operations[name].terminal
  }

  function DecideCycle(c: Cluster): Plan {
    if !c.destination then Nothing
    else if c.cycle > 0 && InFlight(c, Cycle(c.cycle)) then Nothing
    else
      var number := NextCycle(c.cycle);
      if Cycle(number) in c.operations then RecordOnly(number) else CreateAndRecord(number)
  }

  function DecideAbort(c: Cluster): Plan {
    if c.active.None? || c.active.value !in c.operations then Nothing
    else
      var operation := c.operations[c.active.value];
      if !operation.ours || operation.deleting then Nothing else Remove(c.active.value)
  }

  function Decide(c: Cluster): Plan {
    if c.enabled then
      if c.phase.Unset? || c.phase.Running? then DecideCycle(c) else Nothing
    else if c.phase.Hibernating? then DecideAbort(c)
    else Nothing
  }

  // ----- The writes

  /** Creating an operation that already exists is accepted as done. */
  function Create(c: Cluster, number: int): Cluster {
    if Cycle(number) in c.operations then c
    else c.(operations := c.operations[Cycle(number) := Operation(true, false, false)])
  }

  function RecordCycle(c: Cluster, number: int): Cluster {
    if c.cycle >= number then c else c.(cycle := number)
  }

  /** A finaliser keeps the operation until its own controller releases it. */
  function Delete(c: Cluster, name: Name): Cluster {
    if name !in c.operations then c
    else c.(operations := c.operations[name := c.operations[name].(deleting := true)])
  }

  function Execute(c: Cluster, plan: Plan): Cluster {
    match plan
    case Nothing => c
    case CreateAndRecord(number) => RecordCycle(Create(c, number), number)
    case RecordOnly(number) => RecordCycle(c, number)
    case Remove(name) => Delete(c, name)
  }

  class HibernationDriver {
    var enabled: bool
    var destination: bool
    var phase: Phase
    var cycle: int
    var active: Option<Name>
    var operations: map<Name, Operation>

    function Value(): Cluster
      reads this
    {
      Cluster(enabled, destination, phase, cycle, active, operations)
    }

    method RecordHibernationCycle(number: int)
      modifies this`cycle
      ensures Value() == RecordCycle(old(Value()), number)
    {
      if cycle >= number { return; }
      cycle := number;
    }

    method EnsureHibernationCycleOperation()
      modifies this`cycle, this`operations
      ensures Value() == Execute(old(Value()), DecideCycle(old(Value())))
    {
      if !destination { return; }
      if cycle > 0 && Cycle(cycle) in operations && !operations[Cycle(cycle)].terminal { return; }
      var number := NextCycle(cycle);
      if Cycle(number) !in operations {
        operations := operations[Cycle(number) := Operation(true, false, false)];
      }
      RecordHibernationCycle(number);
    }

    method AbortSpecHibernation()
      modifies this`operations
      ensures Value() == Execute(old(Value()), DecideAbort(old(Value())))
    {
      if active.None? || active.value !in operations { return; }
      var operation := operations[active.value];
      if !operation.ours || operation.deleting { return; }
      operations := operations[active.value := operation.(deleting := true)];
    }

    method ReconcileHibernationSpec()
      modifies this
      ensures Value() == Execute(old(Value()), Decide(old(Value())))
    {
      if enabled {
        if phase.Unset? || phase.Running? { EnsureHibernationCycleOperation(); }
      } else if phase.Hibernating? {
        AbortSpecHibernation();
      }
    }
  }

  /** What one reconcile brings about: with hibernation asked for and nothing in flight the
      next cycle's operation exists and its number is recorded; switched off while
      hibernating, the active operation this Tamoss controls is being deleted; in every other
      case, among them every other phase, nothing moves. */
  lemma DrivesSpec(c: Cluster)
    requires 0 <= c.cycle < MAX32
    ensures var after := Execute(c, Decide(c));
      && (c.enabled && c.destination && (c.phase.Unset? || c.phase.Running?) && !(c.cycle > 0 && InFlight(c, Cycle(c.cycle))) ==>
            after.cycle == c.cycle + 1 && Cycle(after.cycle) in after.operations)
      && (!c.enabled && c.phase.Hibernating? && c.active.Some? && c.active.value in c.operations && c.operations[c.active.value].ours ==>
            after.operations[c.active.value].deleting)
      && (c.enabled && !c.phase.Unset? && !c.phase.Running? ==> after == c)
      && (c.enabled && (!c.destination || (c.cycle > 0 && InFlight(c, Cycle(c.cycle)))) ==> after == c)
      && (!c.enabled && !(c.phase.Hibernating? && c.active.Some? && c.active.value in c.operations && c.operations[c.active.value].ours) ==>
            after == c)
      && (after.cycle == c.cycle ==> after.operations.Keys == c.operations.Keys)
      && (forall n | n in c.operations && c.active != Some(n) :: n in after.operations && after.operations[n] == c.operations[n])
  {
  }

  // ----- Runs

  datatype Pending = Idle | Creating(number: int) | Recording(number: int) | Removing(name: Name)

  datatype System = System(c: Cluster, pending: Pending)

  datatype Step =
    | Observe
    | Write
    | Crash
    | UserCreates(name: Name)
    | Progresses(name: Name, terminal: bool, deleting: bool)
    | Reopens(name: Name)
    | Vanishes(name: Name)
    | Changes(enabled: bool, destination: bool, phase: Phase, active: Option<Name>)

  predicate Init(s: System) {
    s.c.cycle == 0 && s.c.operations == map[] && s.pending.Idle?
  }

  predicate Possible(s: System, step: Step) {
    match step
    case Observe => s.pending.Idle?
    case Write => !s.pending.Idle?
    case Crash => true
    case UserCreates(name) => name !in s.c.operations
    case Progresses(name, terminal, _) => name in s.c.operations && (s.c.operations[name].terminal ==> terminal)
    case Reopens(name) => name in s.c.operations && s.c.operations[name].terminal
    case Vanishes(name) => name in s.c.operations
    case Changes(_, _, _, _) => true
  }

  function Begin(plan: Plan): Pending {
    match plan
    case Nothing => Idle
    case CreateAndRecord(number) => Creating(number)
    case RecordOnly(number) => Recording(number)
    case Remove(name) => Removing(name)
  }

  function WriteNext(s: System): System {
    match s.pending
    case Idle => s
    case Creating(number) => System(Create(s.c, number), Recording(number))
    case Recording(number) => System(RecordCycle(s.c, number), Idle)
    case Removing(name) => System(Delete(s.c, name), Idle)
  }

  function Put(c: Cluster, name: Name, operation: Operation): Cluster {
    c.(operations := c.operations[name := operation])
  }

  function After(s: System, step: Step): System
    requires Possible(s, step)
  {
    match step
    case Observe => s.(pending := Begin(Decide(s.c)))
    case Write => WriteNext(s)
    case Crash => s.(pending := Idle)
    case UserCreates(name) => s.(c := Put(s.c, name, Operation(false, false, false)))
    case Progresses(name, terminal, deleting) =>
      s.(c := Put(s.c, name, s.c.operations[name].(terminal := terminal, deleting := deleting)))
    case Reopens(name) => s.(c := Put(s.c, name, s.c.operations[name].(terminal := false)))
    case Vanishes(name) => s.(c := s.c.(operations := s.c.operations - {name}))
    case Changes(enabled, destination, phase, active) =>
      s.(c := s.c.(enabled := enabled, destination := destination, phase := phase, active := active))
  }

  predicate Follows(s: System, step: Step, t: System) {
    Possible(s, step) && t == After(s, step)
  }

  ghost predicate IsRun(run: seq<System>, steps: seq<Step>) {
    && |run| == |steps| + 1 && Init(run[0])
    && forall i, j | 0 <= i < j < |run| && j == i + 1 :: Follows(run[i], steps[i], run[j])
  }

  /** A run of writes that is not interrupted is one call of the reconciler. */
  lemma UninterruptedReconcile(c: Cluster)
    ensures var s := System(c, Begin(Decide(c))); WriteNext(WriteNext(s)).c == Execute(c, Decide(c))
  {
  }

  // ----- The invariant

  predicate OursInFlight(c: Cluster, name: Name) {
    InFlight(c, name) && c.operations[name].ours
  }

  /** A creation is under way that will advance the counter or make the next operation. */
  predicate Advancing(s: System) {
    s.pending.Creating? || (s.pending.Recording? && s.pending.number > s.c.cycle)
  }

  /** Retrying this finished operation of ours overlaps no other: none is unfinished, and it is
      the next one, or the latest one and its successor has not been decided on. */
  ghost predicate Harmless(s: System, name: Name) {
    && (forall n :: !OursInFlight(s.c, n))
    && (name == Cycle(NextCycle(s.c.cycle)) || (name == Cycle(s.c.cycle) && !Advancing(s)))
  }

  /** The step is no retry of one of our operations, or a harmless one. */
  ghost predicate RetriesHarmlessly(s: System, step: Step) {
    step.Reopens? && step.name in s.c.operations && s.c.operations[step.name].ours ==> Harmless(s, step.name)
  }

  /** The counter stays in range and a started creation is for the number after it. */
  predicate Numbered(s: System) {
    0 <= s.c.cycle <= MAX32 && (s.pending.Creating? || s.pending.Recording? ==> s.pending.number == NextCycle(s.c.cycle))
  }

  /** Our operations are numbered up to the counter, or are the next one. */
  ghost predicate Named(s: System) {
    forall n | n in s.c.operations && s.c.operations[n].ours ::
      n.Cycle? && (1 <= n.number <= s.c.cycle || n == Cycle(NextCycle(s.c.cycle)))
  }

  ghost predicate Inv(s: System) {
    var latest, next := Cycle(s.c.cycle), Cycle(NextCycle(s.c.cycle));
    && Numbered(s) && Named(s)
    && (forall n | OursInFlight(s.c, n) :: n == latest || n == next)
    && !(OursInFlight(s.c, latest) && OursInFlight(s.c, next))
    && (Advancing(s) ==> !OursInFlight(s.c, latest))
  }

  lemma {:induction false} NamedKept(s: System, step: Step)
    requires Numbered(s) && Named(s) && Possible(s, step)
    ensures Numbered(After(s, step)) && Named(After(s, step))
  {
  }

  /** No step but a creation or a retry makes an operation of ours unfinished. */
  lemma {:induction false} NewlyInFlight(s: System, step: Step, n: Name)
    requires Possible(s, step) && OursInFlight(After(s, step).c, n) && !OursInFlight(s.c, n)
    ensures (s.pending.Creating? && step.Write? && n == Cycle(s.pending.number)) ||
            (step == Reopens(n) && s.c.operations[n].ours)
  {
  }

  lemma {:induction false} StepKeeps(s: System, step: Step)
    requires Inv(s) && Possible(s, step) && RetriesHarmlessly(s, step)
    ensures Inv(After(s, step))
  {
    var t := After(s, step);
    var next := Cycle(NextCycle(s.c.cycle));
    NamedKept(s, step);
    forall n | OursInFlight(t.c, n) && !OursInFlight(s.c, n)
      ensures (n == next && s.pending.Creating? && step.Write?) || step == Reopens(n)
      ensures forall m | OursInFlight(s.c, m) :: m == next
    {
      NewlyInFlight(s, step, n);
    }
    if t.c.cycle != s.c.cycle {
      assert Advancing(s) && t.c.cycle == NextCycle(s.c.cycle);
      assert !OursInFlight(t.c, Cycle(NextCycle(t.c.cycle)));
    }
  }

  /** Steps from one state on. */
  ghost predicate Continues(run: seq<System>, steps: seq<Step>) {
    && |run| == |steps| + 1
    && forall i, j | 0 <= i < j < |run| && j == i + 1 :: Follows(run[i], steps[i], run[j])
  }

  lemma {:induction false} ContinuesInv(run: seq<System>, steps: seq<Step>, i: nat)
    requires Continues(run, steps) && Inv(run[0]) && i < |run|
    requires forall k | 0 <= k < i :: RetriesHarmlessly(run[k], steps[k])
    ensures Inv(run[i])
  {
    if i > 0 {
      ContinuesInv(run, steps, i - 1);
      assert Follows(run[i - 1], steps[i - 1], run[i]);
      StepKeeps(run[i - 1], steps[i - 1]);
    }
  }

  lemma {:induction false} RunInv(run: seq<System>, steps: seq<Step>, i: nat)
    requires IsRun(run, steps) && i < |run|
    requires forall k | 0 <= k < i :: RetriesHarmlessly(run[k], steps[k])
    ensures Inv(run[i])
  {
    ContinuesInv(run, steps, i);
  }

  lemma {:induction false} RunNumbered(run: seq<System>, steps: seq<Step>, i: nat, j: nat)
    requires IsRun(run, steps) && i <= j < |run|
    ensures Numbered(run[i]) && Numbered(run[j]) && run[i].c.cycle <= run[j].c.cycle
    decreases j
  {
    if j > 0 {
      RunNumbered(run, steps, if i < j then i else j - 1, j - 1);
      assert Follows(run[j - 1], steps[j - 1], run[j]);
    }
  }

  // ----- Theorems

  ghost predicate Overlap(s: System) {
    exists m, n :: m != n && OursInFlight(s.c, m) && OursInFlight(s.c, n)
  }

  /** In every run, at most one operation created by the driver has not finished, provided
      every retry is harmless. */
  lemma {:induction false} AtMostOneInFlight(run: seq<System>, steps: seq<Step>, i: nat)
    requires IsRun(run, steps) && i < |run|
    requires forall k | 0 <= k < i :: RetriesHarmlessly(run[k], steps[k])
    ensures !Overlap(run[i])
  {
    RunInv(run, steps, i);
  }

  /** The cycle counter never goes back, and a newly created operation bears a number above
      every number recorded so far, until the counter reaches its 32-bit limit. */
  lemma {:induction false} NumbersNeverReused(run: seq<System>, steps: seq<Step>, i: nat, j: nat)
    requires IsRun(run, steps) && i <= j < |run|
    ensures run[i].c.cycle <= run[j].c.cycle
    ensures run[j].pending.Creating? && run[j].c.cycle < MAX32 ==> run[i].c.cycle < run[j].pending.number
  {
    RunNumbered(run, steps, i, j);
  }

  /** The user created an operation of this name while its predecessor was being aborted. */
  ghost predicate Replaced(run: seq<System>, steps: seq<Step>, i: nat, name: Name) {
    exists k | 0 <= k < i && k < |steps| && k < |run| :: steps[k] == UserCreates(name) && run[k].pending == Removing(name)
  }

  /** An abort is aimed at an operation this Tamoss controls; it can only hit a user's own
      operation that took the name between the read and the delete. */
  lemma {:induction false} UserOperationsLeftAlone(run: seq<System>, steps: seq<Step>, i: nat)
    requires IsRun(run, steps) && i < |run| && run[i].pending.Removing?
    requires run[i].pending.name in run[i].c.operations && !run[i].c.operations[run[i].pending.name].ours
    ensures Replaced(run, steps, i, run[i].pending.name)
  {
    var s, t, name := run[i - 1], run[i], run[i].pending.name;
    assert Follows(s, steps[i - 1], t);
    if steps[i - 1] != UserCreates(name) {
      UserOperationsLeftAlone(run, steps, i - 1);
    }
  }

  // ----- Exactly when a retry may overlap another operation

  function Last(run: seq<System>): System
    requires run != []
  {
    run[|run| - 1]
  }

  lemma Extend(run: seq<System>, steps: seq<Step>, step: Step) returns (longer: seq<System>, more: seq<Step>)
    requires Continues(run, steps) && Possible(Last(run), step)
    ensures Continues(longer, more) && Last(longer) == After(Last(run), step) && run < longer && more == steps + [step]
  {
    longer, more := run + [After(Last(run), step)], steps + [step];
    forall i, j | 0 <= i < j < |longer| && j == i + 1 ensures Follows(longer[i], more[i], longer[j]) {
      assert longer[i] == run[i];
      if j < |run| { assert longer[j] == run[j] && more[i] == steps[i] && Follows(run[i], steps[i], run[j]); }
    }
  }

  /** No operation is retried in these steps. */
  predicate NoRetry(steps: seq<Step>) {
    forall i | 0 <= i < |steps| :: !steps[i].Reopens?
  }

  lemma {:induction false} Cleared(run: seq<System>, steps: seq<Step>, name: Name) returns (longer: seq<System>, more: seq<Step>)
    requires Continues(run, steps) && NoRetry(steps)
    ensures Continues(longer, more) && NoRetry(more) && longer[0] == run[0] && name !in Last(longer).c.operations
    ensures Last(longer) == Last(run).(c := Last(run).c.(operations := Last(run).c.operations - {name}))
  {
    longer, more := run, steps;
    if name in Last(run).c.operations {
      longer, more := Extend(run, steps, Vanishes(name));
    } else {
      assert Last(run).c.operations - {name} == Last(run).c.operations;
    }
  }

  /** An unfinished operation that is neither the latest nor the next one does not hold back
      the driver, so the next one can be created beside it. */
  lemma {:induction false} OlderOverlaps(run: seq<System>, steps: seq<Step>, name: Name) returns (longer: seq<System>, more: seq<Step>)
    requires Continues(run, steps) && NoRetry(steps)
    requires var c := Last(run).c; OursInFlight(c, name) && name != Cycle(c.cycle) && name != Cycle(NextCycle(c.cycle))
    ensures Continues(longer, more) && NoRetry(more) && longer[0] == run[0] && Overlap(Last(longer))
  {
    var c := Last(run).c;
    var next := Cycle(NextCycle(c.cycle));
    longer, more := Extend(run, steps, Crash);
    longer, more := Extend(longer, more, Changes(true, true, Running, None));
    longer, more := Cleared(longer, more, Cycle(c.cycle));
    longer, more := Cleared(longer, more, next);
    longer, more := Extend(longer, more, Observe);
    longer, more := Extend(longer, more, Write);
    assert OursInFlight(Last(longer).c, name) && OursInFlight(Last(longer).c, next);
  }

  lemma {:induction false} HarmfulOverlaps(s: System, name: Name) returns (run: seq<System>, steps: seq<Step>)
    requires Inv(s) && Possible(s, Reopens(name)) && s.c.operations[name].ours && !Harmless(s, name)
    ensures Continues(run, steps) && NoRetry(steps) && run[0] == After(s, Reopens(name)) && Overlap(Last(run))
  {
    var t := After(s, Reopens(name));
    var latest, next := Cycle(s.c.cycle), Cycle(NextCycle(s.c.cycle));
    run, steps := [t], [];
    assert OursInFlight(t.c, name);
    if n :| OursInFlight(s.c, n) {
      assert OursInFlight(t.c, n) && n != name;
    } else if name != latest {
      run, steps := OlderOverlaps(run, steps, name);
    } else if s.pending.Creating? {
      run, steps := Cleared(run, steps, next);
      run, steps := Extend(run, steps, Write);
      assert OursInFlight(Last(run).c, latest) && OursInFlight(Last(run).c, next);
    } else {
      run, steps := Extend(run, steps, Write);
      run, steps := OlderOverlaps(run, steps, name);
    }
  }

  /** Whatever happens after it short of another retry, no two operations overlap. */
  ghost predicate NeverOverlaps(s: System) {
    forall run, steps | Continues(run, steps) && NoRetry(steps) && run[0] == s :: !Overlap(Last(run))
  }

  /** A retry of one of our operations is followed by no overlap, in whatever course, if and
      only if it is harmless. */
  lemma {:induction false} RetryHarmlessExactly(s: System, name: Name)
    requires Inv(s) && Possible(s, Reopens(name)) && s.c.operations[name].ours
    ensures NeverOverlaps(After(s, Reopens(name))) <==> Harmless(s, name)
  {
    var t := After(s, Reopens(name));
    if Harmless(s, name) {
      StepKeeps(s, Reopens(name));
      forall run, steps | Continues(run, steps) && NoRetry(steps) && run[0] == t ensures !Overlap(Last(run)) {
        ContinuesInv(run, steps, |run| - 1);
      }
    } else {
      var run, steps := HarmfulOverlaps(s, name);
    }
  }

  /** One cycle has been recorded and its operation has finished. */
  lemma {:induction false} OneCycleDone() returns (run: seq<System>, steps: seq<Step>)
    ensures IsRun(run, steps)
    ensures Last(run) == System(Cluster(true, true, Running, 1, None, map[Cycle(1) := Operation(true, true, false)]), Idle)
  {
    run, steps := [System(Cluster(true, true, Running, 0, None, map[]), Idle)], [];
    run, steps := Extend(run, steps, Observe);
    run, steps := Extend(run, steps, Write);
    run, steps := Extend(run, steps, Write);
    run, steps := Extend(run, steps, Progresses(Cycle(1), true, false));
  }

  /** Retrying an earlier operation after its successor was created leaves two unfinished. */
  lemma {:induction false} RetryCanOverlap() returns (run: seq<System>, steps: seq<Step>)
    ensures IsRun(run, steps) && OursInFlight(Last(run).c, Cycle(1)) && OursInFlight(Last(run).c, Cycle(2))
  {
    run, steps := OneCycleDone();
    run, steps := Extend(run, steps, Observe);
    run, steps := Extend(run, steps, Write);
    run, steps := Extend(run, steps, Reopens(Cycle(1)));
  }

  /** So does retrying the latest one when the driver has already decided to create the next. */
  lemma {:induction false} RetryOfLatestCanOverlap() returns (run: seq<System>, steps: seq<Step>, k: nat)
    ensures IsRun(run, steps) && OursInFlight(Last(run).c, Cycle(1)) && OursInFlight(Last(run).c, Cycle(2))
    ensures k < |steps| && steps[k] == Reopens(Cycle(1)) && run[k].c.cycle == 1 && Cycle(2) !in run[k].c.operations
  {
    run, steps := OneCycleDone();
    run, steps := Extend(run, steps, Observe);
    k := |steps|;
    var before := run;
    run, steps := Extend(run, steps, Reopens(Cycle(1)));
    run, steps := Extend(run, steps, Write);
    assert run[k] == before[k];
  }
}
