/** The Console's cancel command: read the run, check it against the caller's UID
    and revision, then patch it under an optimistic lock.  Any number of command
    handlers race each other, the controller, and whoever deletes and recreates
    runs. */
module CancelCommand {
  import opened Base
  import opened IngestRun

  /** The parts of an IngestRun object the command looks at. */
  datatype Run = Run(uid: nat, revision: nat, instance: string, cancelled: bool, phase: Phase)

  datatype Request = Request(instance: string, uid: nat, revision: nat)

  datatype Answer = RunNotFound | ObjectReplaced | StaleRevision | RunNotActive | CommandUnavailable | Accepted(replayed: bool)

  predicate Cancelable(run: Run) {
    !run.cancelled && (run.phase.Unset? || run.phase.Pending? || run.phase.Queued? || run.phase.Running?)
  }

  /** The checks between the read and the patch, in order; None lets the patch go ahead. */
  function Judge(request: Request, run: Option<Run>): Option<Answer> {
    if run.None? || run.value.instance != request.instance then Some(RunNotFound)
    else if run.value.uid != request.uid then Some(ObjectReplaced)
    else if run.value.cancelled then Some(Accepted(true))
    else if run.value.revision != request.revision then Some(StaleRevision)
    else if !Cancelable(run.value) then Some(RunNotActive)
    else None
  }

  // ----- Handlers racing over one object name

  datatype Handler =
    | Received(request: Request)
    | Checked(request: Request, seen: Run)
    | Answered(request: Request, answer: Answer)

  /** Revisions and UIDs are handed out by the API server and never reused. */
  datatype System = System(run: Option<Run>, handlers: map<nat, Handler>, nextRevision: nat, nextUid: nat)

  predicate Init(s: System) {
    s.run.None? && s.handlers == map[]
  }

  predicate Arrive(s: System, s': System, id: nat, request: Request) {
    id !in s.handlers && s' == s.(handlers := s.handlers[id := Received(request)])
  }

  predicate Read(s: System, s': System, id: nat) {
    && id in s.handlers && s.handlers[id].Received?
    && var request := s.handlers[id].request;
       var verdict := Judge(request, s.run);
       s' == s.(handlers := s.handlers[id :=
         if verdict.Some? then Answered(request, verdict.value) else Checked(request, s.run.value)])
  }

  /** The API server takes the patch only while the object still has the revision that was read. */
  predicate PatchLands(s: System, id: nat) {
    id in s.handlers && s.handlers[id].Checked? && s.run.Some? && s.run.value.revision == s.handlers[id].seen.revision
  }

  function Cancelling(s: System): Option<Run>
    requires s.run.Some?
  {
    Some(s.run.value.(cancelled := true, revision := s.nextRevision))
  }

  predicate Patch(s: System, s': System, id: nat) {
    && id in s.handlers && s.handlers[id].Checked?
    && if PatchLands(s, id)
       then s' == s.(run := Cancelling(s), nextRevision := s.nextRevision + 1,
                     handlers := s.handlers[id := Answered(s.handlers[id].request, Accepted(false))])
       else s' == s.(handlers := s.handlers[id := Answered(s.handlers[id].request,
                                              if s.run.Some? then StaleRevision else CommandUnavailable)])
  }

  /** A call fails or times out; the patch may or may not have landed. */
  predicate GiveUp(s: System, s': System, id: nat) {
    && id in s.handlers && !s.handlers[id].Answered?
    && var handlers := s.handlers[id := Answered(s.handlers[id].request, CommandUnavailable)];
       || s' == s.(handlers := handlers)
       || (PatchLands(s, id) && s' == s.(run := Cancelling(s), nextRevision := s.nextRevision + 1, handlers := handlers))
  }

  /** Other writers: any update that keeps UID and instance and does not undo a
      cancellation (an admission rule), deletion, and creation under a new UID. */
  predicate OtherWriter(s: System, s': System) {
    || (&& s.run.Some? && s'.run.Some?
        && s'.run.value.uid == s.run.value.uid && s'.run.value.instance == s.run.value.instance
        && (s.run.value.cancelled ==> s'.run.value.cancelled)
        && s'.run.value.revision == s.nextRevision
        && s' == s.(run := s'.run, nextRevision := s.nextRevision + 1))
    || s' == s.(run := None)
    || (&& s.run.None? && s'.run.Some?
        && s'.run.value.uid == s.nextUid && s'.run.value.revision == s.nextRevision
        && s' == s.(run := s'.run, nextRevision := s.nextRevision + 1, nextUid := s.nextUid + 1))
  }

  ghost predicate Next(s: System, s': System) {
    || (exists id: nat, request :: Arrive(s, s', id, request))
    || (exists id: nat :: Read(s, s', id) || Patch(s, s', id) || GiveUp(s, s', id))
    || OtherWriter(s, s')
  }

  ghost predicate IsRun(trace: seq<System>) {
    && |trace| > 0 && Init(trace[0])
    && forall i, j | 0 <= i < j < |trace| && j == i + 1 :: Next(trace[i], trace[j])
  }

  // ----- Invariant

  ghost predicate HandlerGood(s: System, h: Handler) {
    match h
    case Received(_) => true
    case Checked(request, seen) =>
      && seen.uid == request.uid && seen.revision == request.revision && seen.instance == request.instance
      && Cancelable(seen) && seen.revision < s.nextRevision
      && (s.run.Some? && s.run.value.revision == seen.revision ==> s.run.value == seen)
    case Answered(request, answer) =>
      answer.Accepted? ==>
        && request.uid < s.nextUid
        && (s.run.Some? && s.run.value.uid == request.uid ==> s.run.value.cancelled && s.run.value.instance == request.instance)
  }

  ghost predicate Inv(s: System) {
    && (s.run.Some? ==> s.run.value.revision < s.nextRevision && s.run.value.uid < s.nextUid)
    && forall id | id in s.handlers :: HandlerGood(s, s.handlers[id])
  }

  lemma {:induction false} WriterInv(s: System, s': System)
    requires Inv(s) && OtherWriter(s, s')
    ensures Inv(s')
  {
    forall id | id in s'.handlers ensures HandlerGood(s', s'.handlers[id]) {
      assert HandlerGood(s, s.handlers[id]);
    }
  }

  lemma {:induction false} HandlerInv(s: System, s': System, id: nat)
    requires Inv(s) && (Read(s, s', id) || Patch(s, s', id) || GiveUp(s, s', id))
    ensures Inv(s')
  {
    assert HandlerGood(s, s.handlers[id]);
    forall other | other in s'.handlers ensures HandlerGood(s', s'.handlers[other]) {
      assert HandlerGood(s, s.handlers[other]);
    }
  }

  lemma {:induction false} NextInv(s: System, s': System)
    requires Inv(s) && Next(s, s')
    ensures Inv(s')
  {
    if OtherWriter(s, s') {
      WriterInv(s, s');
    } else if id: nat :| Read(s, s', id) || Patch(s, s', id) || GiveUp(s, s', id) {
      HandlerInv(s, s', id);
    }
  }

  lemma {:induction false} RunInv(trace: seq<System>, i: nat)
    requires IsRun(trace) && i < |trace|
    ensures Inv(trace[i])
  {
    if i > 0 {
      RunInv(trace, i - 1);
      NextInv(trace[i - 1], trace[i]);
    }
  }

  // ----- What a caller may rely on

  /** A command answered with success and not as a replay committed to exactly the
      object the caller named, at exactly the revision the caller named, while it
      was still active, and changed nothing but the desired state and revision. */
  lemma {:induction false} CommitsToNamedRevision(trace: seq<System>, i: nat, id: nat)
    requires IsRun(trace) && i + 1 < |trace| && id in trace[i].handlers && id in trace[i + 1].handlers
    requires !trace[i].handlers[id].Answered?
    requires trace[i + 1].handlers[id].Answered? && trace[i + 1].handlers[id].answer == Accepted(false)
    ensures var request := trace[i].handlers[id].request;
      var before, after := trace[i].run, trace[i + 1].run;
      && before.Some? && before.value.uid == request.uid && before.value.revision == request.revision
      && before.value.instance == request.instance && Cancelable(before.value)
      && after == Some(before.value.(cancelled := true, revision := trace[i].nextRevision))
  {
    RunInv(trace, i);
    var s, s' := trace[i], trace[i + 1];
    assert Next(s, s');
    assert HandlerGood(s, s.handlers[id]);
  }

  lemma {:induction false} AnswersStay(trace: seq<System>, i: nat, j: nat, id: nat)
    requires IsRun(trace) && i <= j < |trace| && id in trace[i].handlers && trace[i].handlers[id].Answered?
    ensures id in trace[j].handlers && trace[j].handlers[id] == trace[i].handlers[id]
  {
    if i < j {
      AnswersStay(trace, i, j - 1, id);
      assert Next(trace[j - 1], trace[j]);
    }
  }

  /** After any success answer, replayed or not, the named run is cancelled in every
      later state in which it still exists. */
  lemma {:induction false} AcceptedIsForGood(trace: seq<System>, i: nat, j: nat, id: nat)
    requires IsRun(trace) && i <= j < |trace| && id in trace[i].handlers
    requires trace[i].handlers[id].Answered? && trace[i].handlers[id].answer.Accepted?
    requires trace[j].run.Some? && trace[j].run.value.uid == trace[i].handlers[id].request.uid
    ensures trace[j].run.value.cancelled
  {
    AnswersStay(trace, i, j, id);
    RunInv(trace, j);
    assert HandlerGood(trace[j], trace[j].handlers[id]);
  }

  /** What the read alone comes to, case by case: a run of this instance and UID that is cancelled already
      is a replay whatever its revision, and only a live run at the named revision goes on to the patch. */
  lemma ReadExactly(s: System, s': System, id: nat)
    requires Read(s, s', id)
    ensures var request, after := s.handlers[id].request, s'.handlers[id];
      var found := s.run.Some? && s.run.value.instance == request.instance;
      var ours := found && s.run.value.uid == request.uid;
      && s'.run == s.run
      && (after == Answered(request, RunNotFound) <==> !found)
      && (after == Answered(request, ObjectReplaced) <==> found && !ours)
      && (after == Answered(request, Accepted(true)) <==> ours && s.run.value.cancelled)
      && (after == Answered(request, StaleRevision) <==> ours && !s.run.value.cancelled && s.run.value.revision != request.revision)
      && (after == Answered(request, RunNotActive) <==>
            ours && !s.run.value.cancelled && s.run.value.revision == request.revision && Terminal(s.run.value.phase))
      && (after.Checked? <==>
            ours && !s.run.value.cancelled && s.run.value.revision == request.revision && !Terminal(s.run.value.phase))
      && (after.Checked? ==> after == Checked(request, s.run.value))
  {
  }

  /** Repeating an accepted command is harmless: as long as the run exists, reading it again for the same
      request answers with a replay, whatever other writers did to it in between. */
  lemma {:induction false} RepeatIsReplayed(trace: seq<System>, i: nat, j: nat, id: nat, again: nat)
    requires IsRun(trace) && i <= j && j + 1 < |trace| && id in trace[i].handlers
    requires trace[i].handlers[id].Answered? && trace[i].handlers[id].answer.Accepted?
    requires Read(trace[j], trace[j + 1], again) && trace[j].handlers[again].request == trace[i].handlers[id].request
    requires trace[j].run.Some? && trace[j].run.value.uid == trace[i].handlers[id].request.uid
    ensures trace[j + 1].handlers[again] == Answered(trace[i].handlers[id].request, Accepted(true))
    ensures trace[j + 1].run == trace[j].run
  {
    AnswersStay(trace, i, j, id);
    RunInv(trace, j);
    assert HandlerGood(trace[j], trace[j].handlers[id]);
    ReadExactly(trace[j], trace[j + 1], again);
  }

  /** A command that names a live run as it is, and that no write to the run overtakes, is accepted and cancels it. */
  lemma UndisturbedIsAccepted(s: System, s': System, t: System, t': System, id: nat)
    requires Read(s, s', id) && s.run.Some? && !s.run.value.cancelled && !Terminal(s.run.value.phase)
    requires var request := s.handlers[id].request;
      request == Request(s.run.value.instance, s.run.value.uid, s.run.value.revision)
    requires t.run == s'.run && id in t.handlers && t.handlers[id] == s'.handlers[id] && Patch(t, t', id)
    ensures t'.handlers[id] == Answered(s.handlers[id].request, Accepted(false))
    ensures t'.run == Some(s.run.value.(cancelled := true, revision := t.nextRevision))
  {
  }

  /** What each answer says about the run at the moment it is given. */
  predicate Truthful(request: Request, run: Option<Run>, answer: Answer) {
    var ours := run.Some? && run.value.instance == request.instance && run.value.uid == request.uid;
    match answer
    case RunNotFound => run.None? || run.value.instance != request.instance
    case ObjectReplaced => run.Some? && run.value.instance == request.instance && run.value.uid != request.uid
    case StaleRevision => run.Some? && run.value.revision != request.revision
    case RunNotActive => ours && run.value.revision == request.revision && !Cancelable(run.value)
    case CommandUnavailable => true
    case Accepted(replayed) => ours && run.value.cancelled == replayed
  }

  /** The command is called unavailable only when a call failed or the run vanished before the patch. */
  lemma {:induction false} UnavailableExplained(s: System, s': System, id: nat)
    requires Next(s, s') && id in s.handlers && !s.handlers[id].Answered?
    requires id in s'.handlers && s'.handlers[id].Answered? && s'.handlers[id].answer.CommandUnavailable?
    ensures s.run.None? || GiveUp(s, s', id)
  {
  }

  /** Every answer is true of the run at the step that gives it. */
  lemma {:induction false} AnswersAreTruthful(trace: seq<System>, i: nat, id: nat)
    requires IsRun(trace) && i + 1 < |trace| && id in trace[i].handlers && !trace[i].handlers[id].Answered?
    requires id in trace[i + 1].handlers && trace[i + 1].handlers[id].Answered?
    ensures Truthful(trace[i].handlers[id].request, trace[i].run, trace[i + 1].handlers[id].answer)
  {
    RunInv(trace, i);
    var s, s' := trace[i], trace[i + 1];
    assert Next(s, s');
    assert HandlerGood(s, s.handlers[id]);
  }
}
