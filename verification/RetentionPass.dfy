/** One retention pass over the lifecycle record: the verdict on a single artifact,
    its effect on the record, and the loop over the resolved and pending artifacts. */
module RetentionPass {
  import opened Base
  import opened ArtifactRetention
  import ArtifactPrefix

  // ----- When a time-to-live has run out (times and durations in nanoseconds)

  const SECOND := 1_000_000_000
  const INT64_LIMIT := 0x8000_0000_0000_0000
  const RETRY_INTERVAL := 60 * SECOND
  const PROBE_INTERVAL := 10 * SECOND
  const LONGEST_TTL := 9_223_372_036

  /** Signed 64-bit wrap-around, as in the product of a duration and a second. */
  function Wrap64(x: int): int {
    (x + INT64_LIMIT) % (2 * INT64_LIMIT) - INT64_LIMIT
  }

  /** Signed 64-bit saturation, as in the difference of two times. */
  function Clamp64(x: int): int {
    if x < -INT64_LIMIT then -INT64_LIMIT else if x >= INT64_LIMIT then INT64_LIMIT - 1 else x
  }

  function WaitFor(resumedAt: int, ttlSeconds: int, now: int): int {
    Clamp64(resumedAt + Wrap64(ttlSeconds * SECOND) - now)
  }

  predicate Elapsed(resumedAt: int, ttlSeconds: int, now: int) {
    resumedAt + ttlSeconds * SECOND <= now
  }

  ghost predicate TtlHonoured(ttlSeconds: int) {
    forall resumedAt, now :: WaitFor(resumedAt, ttlSeconds, now) <= 0 <==> Elapsed(resumedAt, ttlSeconds, now)
  }

  lemma WrapsOnce(x: int)
    requires 0 < x < INT64_LIMIT * SECOND
    ensures x < INT64_LIMIT ==> Wrap64(x) == x
    ensures x >= INT64_LIMIT ==> Wrap64(x) < x
  {
  }

  /** Deletion happens exactly when the time-to-live has elapsed, for every resume
      time and clock, if and only if the nanosecond product fits in 64 bits. */
  lemma TtlHonouredExactly(ttlSeconds: int)
    requires 0 < ttlSeconds < INT64_LIMIT
    ensures TtlHonoured(ttlSeconds) <==> ttlSeconds <= LONGEST_TTL
  {
    WrapsOnce(ttlSeconds * SECOND);
    if ttlSeconds > LONGEST_TTL {
      assert WaitFor(0, ttlSeconds, Wrap64(ttlSeconds * SECOND)) == 0;
      assert !Elapsed(0, ttlSeconds, Wrap64(ttlSeconds * SECOND));
    }
  }

  // ----- The verdict on one artifact

  datatype Mode = Retain | DeleteAfterResume | Ttl(seconds: int) | UnknownMode

  datatype Backend = Missing | Unreadable | Unsuitable | Usable(mode: Mode)

  datatype Database = Ready | NotReady | UnknownState

  /** What the cluster and the object store answer while one artifact is handled. */
  datatype Answers = Answers(now: int, database: Database, backend: Backend, deleted: bool, saved: bool)

  datatype Verdict =
    | Skip
    | Abort
    | Resume
    | Note(phase: CleanupPhase, wait: nat)
    | Delete(prefix: string)

  function DeleteVerdict(id: Identity): Verdict {
    var prefix := ArtifactPrefix.RootPrefix(id.manifestKey);
    if prefix.None? then Note(Blocked, 0) else Delete(prefix.value)
  }

  function ModeVerdict(id: Identity, resumedAt: int, mode: Mode, now: int): Verdict {
    match mode
    case Retain => Note(Retained, 0)
    case DeleteAfterResume => DeleteVerdict(id)
    case Ttl(seconds) =>
      if seconds <= 0 then Note(Blocked, 0)
      else
        var wait := WaitFor(resumedAt, seconds, now);
        if wait > 0 then Note(Scheduled, wait) else DeleteVerdict(id)
    case UnknownMode => Note(Blocked, 0)
  }

  function Judge(a: Artifact, w: Answers): Verdict {
    if CleanupTerminal(a.cleanup) then Skip
    else if a.resumedAt.None? then
      match w.database
      case Ready => Resume
      case NotReady => Skip
      case UnknownState => Abort
    else
      match w.backend
      case Missing => Note(Blocked, 0)
      case Unreadable => Abort
      case Unsuitable => Note(Blocked, 0)
      case Usable(mode) => ModeVerdict(a.id, a.resumedAt.value, mode, w.now)
  }

  /** The nanosecond product of the time-to-live, if any, fits in 64 bits. */
  predicate FitsClock(backend: Backend) {
    backend.Usable? && backend.mode.Ttl? ==> backend.mode.seconds <= LONGEST_TTL
  }

  /** The policy asks for deletion by now. */
  predicate DueUnder(backend: Backend, resumedAt: int, now: int) {
    || backend == Usable(DeleteAfterResume)
    || (backend.Usable? && backend.mode.Ttl? && backend.mode.seconds > 0 && Elapsed(resumedAt, backend.mode.seconds, now))
  }

  /** Objects are deleted exactly when cleanup is open, the artifact was resumed, the policy
      asks for it by now, and the manifest key names an artifact root. */
  lemma {:induction false} DeletesExactlyWhenDue(a: Artifact, w: Answers)
    requires FitsClock(w.backend)
    ensures Judge(a, w).Delete? <==>
      && !CleanupTerminal(a.cleanup) && a.resumedAt.Some? && DueUnder(w.backend, a.resumedAt.value, w.now)
      && ArtifactPrefix.RootPrefix(a.id.manifestKey).Some?
    ensures Judge(a, w) == Note(Retained, 0) <==>
      !CleanupTerminal(a.cleanup) && a.resumedAt.Some? && w.backend == Usable(Retain)
  {
    if a.resumedAt.Some? && w.backend.Usable? { ModeDeletes(a.id, a.resumedAt.value, w.backend.mode, w.now); }
  }

  lemma {:induction false} TtlDue(resumedAt: int, seconds: int, now: int)
    requires 0 < seconds <= LONGEST_TTL
    ensures WaitFor(resumedAt, seconds, now) <= 0 <==> Elapsed(resumedAt, seconds, now)
  {
    TtlHonouredExactly(seconds);
  }

  lemma {:induction false} ModeDeletes(id: Identity, resumedAt: int, mode: Mode, now: int)
    requires mode.Ttl? ==> mode.seconds <= LONGEST_TTL
    ensures ModeVerdict(id, resumedAt, mode, now).Delete? <==>
      DueUnder(Usable(mode), resumedAt, now) && ArtifactPrefix.RootPrefix(id.manifestKey).Some?
    ensures ModeVerdict(id, resumedAt, mode, now) == Note(Retained, 0) <==> mode == Retain
  {
    if mode.Ttl? && mode.seconds > 0 { TtlDue(resumedAt, mode.seconds, now); }
  }

  // ----- Its effect on the record

  datatype Effect = Stop | Keep | Resumed(now: int) | Noted(phase: CleanupPhase, wait: nat)

  function EffectOf(a: Artifact, w: Answers): Effect {
    Outcome(Judge(a, w), w)
  }

  /** What a verdict comes to, given whether the objects were deleted and the write succeeded. */
  function Outcome(verdict: Verdict, w: Answers): Effect {
    match verdict
    case Skip => Keep
    case Abort => Stop
    case Resume => if w.saved then Resumed(w.now) else Stop
    case Note(phase, wait) => if w.saved then Noted(phase, wait) else Stop
    case Delete(_) =>
      if !w.saved then Stop else if w.deleted then Noted(Completed, 0) else Noted(Scheduled, RETRY_INTERVAL)
  }

  /** The policy cannot be carried out, so cleanup is given up. */
  predicate Hopeless(backend: Backend, resumedAt: int, now: int, id: Identity) {
    || backend.Missing? || backend.Unsuitable?
    || (backend.Usable? && (backend.mode.UnknownMode? || (backend.mode.Ttl? && backend.mode.seconds <= 0)))
    || (DueUnder(backend, resumedAt, now) && ArtifactPrefix.RootPrefix(id.manifestKey).None?)
  }

  /** Every effect on an artifact that owes cleanup, once the backend was read and the write went through:
      given up exactly when hopeless, kept exactly under Retain, done exactly when due and deleted; a failed
      deletion is scheduled again in a minute, and a running time-to-live until its end. */
  lemma {:induction false} OwedEffectExactly(a: Artifact, w: Answers)
    requires !CleanupTerminal(a.cleanup) && a.resumedAt.Some? && !w.backend.Unreadable? && w.saved && FitsClock(w.backend)
    ensures var e, due := EffectOf(a, w), DueUnder(w.backend, a.resumedAt.value, w.now);
      && e.Noted?
      && (e.phase == Blocked <==> Hopeless(w.backend, a.resumedAt.value, w.now, a.id))
      && (e.phase == Retained <==> w.backend == Usable(Retain))
      && (e.phase == Completed <==> due && ArtifactPrefix.RootPrefix(a.id.manifestKey).Some? && w.deleted)
      && (e.phase == Scheduled && due ==> WaitOf(e) == 60_000_000_000)
      && (e.phase == Scheduled && !due ==>
            && w.backend.Usable? && w.backend.mode.Ttl?
            && var left := a.resumedAt.value + w.backend.mode.seconds * SECOND - w.now;
               WaitOf(e) == if left < INT64_LIMIT then left else INT64_LIMIT - 1)
      && (e.phase != Scheduled ==> WaitOf(e) == 0)
  {
    if w.backend.Usable? && w.backend.mode.Ttl? && w.backend.mode.seconds > 0 {
      TtlDue(a.resumedAt.value, w.backend.mode.seconds, w.now);
      WrapsOnce(w.backend.mode.seconds * SECOND);
    }
  }

  /** Every other effect: nothing where cleanup is over or the restored database is not ready, the restore
      noted as soon as it is, and an error, with the record untouched, where a read or the write fails. */
  lemma OtherEffectExactly(a: Artifact, w: Answers)
    ensures CleanupTerminal(a.cleanup) ==> EffectOf(a, w) == Keep
    ensures !CleanupTerminal(a.cleanup) && a.resumedAt.None? ==>
      EffectOf(a, w) == if w.database.NotReady? then Keep
                        else if w.database.UnknownState? || !w.saved then Stop
                        else Resumed(w.now)
    ensures !CleanupTerminal(a.cleanup) && a.resumedAt.Some? && (w.backend.Unreadable? || !w.saved) ==> EffectOf(a, w) == Stop
    ensures !EffectOf(a, w).Noted? ==> WaitOf(EffectOf(a, w)) == if EffectOf(a, w).Resumed? then 10_000_000_000 else 0
  {
  }

  function Affect(l: Lifecycle, id: Identity, e: Effect): Lifecycle {
    match e
    case Stop => l
    case Keep => l
    case Resumed(now) => MarkResumed(l, now)
    case Noted(phase, _) => RecordCleanup(l, id, phase)
  }

  function WaitOf(e: Effect): nat {
    match e
    case Stop => 0
    case Keep => 0
    case Resumed(_) => PROBE_INTERVAL
    case Noted(_, wait) => wait
  }

  function Sooner(result: nat, wait: nat): nat {
    if wait > 0 && (result == 0 || wait < result) then wait else result
  }

  // ----- The pass

  datatype PassResult = PassResult(record: Lifecycle, wait: nat, ok: bool)

  function Sweep(l: Lifecycle, todo: seq<Artifact>, effect: Artifact -> Effect, wait: nat): PassResult
    decreases |todo|
  {
    if todo == [] then PassResult(l, wait, true)
    else
      var e := effect(todo[0]);
      if e.Stop? then PassResult(l, wait, false)
      else Sweep(Affect(l, todo[0].id, e), todo[1..], effect, Sooner(wait, WaitOf(e)))
  }

  function Pass(l: Lifecycle, effect: Artifact -> Effect): PassResult {
    if l.resolved.None? then Sweep(l, l.pending, effect, 0)
    else
      var a := l.resolved.value;
      var e := effect(a);
      if e.Stop? then PassResult(l, 0, false)
      else
        var next := Affect(l, a.id, e);
        Sweep(next, next.pending, effect, WaitOf(e))
  }

  /** Only an artifact whose restore is still open can be reported as resumed. */
  ghost predicate Sound(effect: Artifact -> Effect) {
    forall a :: effect(a).Resumed? ==> a.resumedAt.None?
  }

  // ----- Each entry is handled once, on its own effect alone

  /** What is left of one pending artifact after its own effect. */
  function Remainder(a: Artifact, e: Effect): seq<Artifact> {
    if !e.Noted? then [a] else if Finished(e.phase) then [] else [a.(cleanup := e.phase)]
  }

  function Remaining(todo: seq<Artifact>, effect: Artifact -> Effect): seq<Artifact> {
    if todo == [] then []
    else Remainder(todo[0], effect(todo[0])) + Remaining(todo[1..], effect)
  }

  /** How many entries come before the first that stops the pass. */
  function Reached(todo: seq<Artifact>, effect: Artifact -> Effect): (n: nat)
    ensures n <= |todo|
  {
    if todo == [] || effect(todo[0]).Stop? then 0 else 1 + Reached(todo[1..], effect)
  }

  function Waits(todo: seq<Artifact>, effect: Artifact -> Effect): seq<nat> {
    if todo == [] then [] else [WaitOf(effect(todo[0]))] + Waits(todo[1..], effect)
  }

  /** `w` is the smallest positive wait, or zero when there is none. */
  ghost predicate Smallest(w: nat, waits: seq<nat>) {
    && (w == 0 || w in waits)
    && (forall x | x in waits && x > 0 :: 0 < w <= x)
  }

  lemma SoonerSmallest(w: nat, waits: seq<nat>, next: nat)
    requires Smallest(w, waits)
    ensures Smallest(Sooner(w, next), waits + [next])
  {
    assert forall x :: x in waits + [next] <==> x in waits || x == next;
  }

  lemma SettleCons(x: Artifact, rest: seq<Artifact>, id: Identity, phase: CleanupPhase)
    ensures Settle([x] + rest, id, phase) ==
      if x.id == id then Remainder(x, Noted(phase, 0)) + rest else [x] + Settle(rest, id, phase)
  {
    assert ([x] + rest)[1..] == rest;
    assert x.id == id && Finished(phase) ==> [] + rest == rest;
  }

  lemma Shifted(done: seq<Artifact>, here: seq<Artifact>, rest: seq<Artifact>)
    requires done != []
    ensures done + here + rest == [done[0]] + (done[1..] + here + rest)
  {
  }

  lemma {:induction false} SettleInPlace(done: seq<Artifact>, a: Artifact, rest: seq<Artifact>, phase: CleanupPhase)
    requires a.id !in Ids(done)
    ensures Settle(done + [a] + rest, a.id, phase) == done + Remainder(a, Noted(phase, 0)) + rest
  {
    var left := Remainder(a, Noted(phase, 0));
    if done == [] {
      assert done + [a] + rest == [a] + rest && done + left == left;
      SettleCons(a, rest, a.id, phase);
    } else {
      var d, more := done[0], done[1..];
      assert d in done && forall x | x in more :: x in done;
      SettleInPlace(more, a, rest, phase);
      Shifted(done, [a], rest);
      Shifted(done, left, rest);
      SettleCons(d, more + [a] + rest, a.id, phase);
    }
  }

  lemma {:induction false} SettleAbsent(pending: seq<Artifact>, id: Identity, phase: CleanupPhase)
    requires id !in Ids(pending)
    ensures Settle(pending, id, phase) == pending
  {
    if pending != [] {
      assert pending == [pending[0]] + pending[1..];
      IdsCons(pending[0], pending[1..]);
      SettleAbsent(pending[1..], id, phase);
    }
  }

  lemma {:induction false} UniqueSplit(done: seq<Artifact>, a: Artifact, rest: seq<Artifact>)
    requires Unique(done + [a] + rest)
    ensures a.id !in Ids(done) && a.id !in Ids(rest) && Unique([a] + rest)
  {
    var whole := done + [a] + rest;
    if done == [] {
      assert whole == [a] + rest && whole[1..] == rest;
    } else {
      assert whole[0] == done[0] && whole[1..] == done[1..] + [a] + rest;
      UniqueSplit(done[1..], a, rest);
      assert a in whole[1..];
      assert done == [done[0]] + done[1..];
      IdsCons(done[0], done[1..]);
    }
  }

  predicate Recorded(l: Lifecycle, a: Artifact) {
    l.resolved == Some(a) || a in l.pending
  }

  lemma {:induction false} NotedInPlace(l: Lifecycle, a: Artifact, phase: CleanupPhase)
    requires WellFormed(l) && Recorded(l, a) && !Finished(phase)
    ensures Recorded(RecordCleanup(l, a.id, phase), a.(cleanup := phase))
  {
    if l.resolved != Some(a) {
      var i :| 0 <= i < |l.pending| && l.pending[i] == a;
      var done, rest := l.pending[..i], l.pending[i + 1..];
      assert l.pending == done + [a] + rest;
      UniqueSplit(done, a, rest);
      SettleInPlace(done, a, rest, phase);
      assert (done + [a.(cleanup := phase)] + rest)[i] == a.(cleanup := phase);
    }
  }

  /** A failed deletion is not given up: the artifact stays recorded with its cleanup open, is looked at
      again within a minute, and the first later deletion that goes through completes it. */
  lemma {:induction false} FailedDeletionRetried(l: Lifecycle, a: Artifact, w: Answers, later: Answers)
    requires WellFormed(l) && Recorded(l, a) && !CleanupTerminal(a.cleanup) && a.resumedAt.Some? && FitsClock(w.backend)
    requires DueUnder(w.backend, a.resumedAt.value, w.now) && ArtifactPrefix.RootPrefix(a.id.manifestKey).Some?
    requires w.saved && !w.deleted
    requires later.backend == w.backend && later.now >= w.now && later.saved && later.deleted
    ensures var open, after := a.(cleanup := Scheduled), Affect(l, a.id, EffectOf(a, w));
      && Recorded(after, open) && !CleanupTerminal(open.cleanup) && WaitOf(EffectOf(a, w)) == 60_000_000_000
      && EffectOf(open, later) == Noted(Completed, 0)
  {
    OwedEffectExactly(a, w);
    OwedEffectExactly(a.(cleanup := Scheduled), later);
    assert EffectOf(a, w) == Noted(Scheduled, 60_000_000_000);
    NotedInPlace(l, a, Scheduled);
  }

  /** The invariant of the loop: entries already handled shrank to their remainders, the others are untouched. */
  lemma {:induction false} SweepStep(l: Lifecycle, done: seq<Artifact>, todo: seq<Artifact>, effect: Artifact -> Effect)
    requires todo != [] && l.pending == done + todo && WellFormed(l)
    requires Sound(effect) && todo[0].id !in Ids(done)
    ensures var a, e := todo[0], effect(todo[0]);
      !e.Stop? ==> Affect(l, a.id, e) == l.(pending := done + Remainder(a, e) + todo[1..]) && WellFormed(Affect(l, a.id, e))
  {
    var a, e := todo[0], effect(todo[0]);
    assert a in l.pending;
    assert todo == [a] + todo[1..] && done + todo == done + [a] + todo[1..];
    if e.Noted? {
      SettleInPlace(done, a, todo[1..], e.phase);
      RecordCleanupKeeps(l, a.id, e.phase);
      assert Remainder(a, e) == Remainder(a, Noted(e.phase, 0));
    }
  }

  lemma {:induction false} SweepIsPointwise(l: Lifecycle, done: seq<Artifact>, todo: seq<Artifact>, effect: Artifact -> Effect, wait: nat)
    requires l.pending == done + todo && WellFormed(l) && Sound(effect)
    ensures var n, r := Reached(todo, effect), Sweep(l, todo, effect, wait);
      && r.record == l.(pending := done + Remaining(todo[..n], effect) + todo[n..])
      && WellFormed(r.record)
      && (r.ok <==> n == |todo|)
    decreases |todo|
  {
    if todo == [] {
      assert done + [] + [] == done;
    } else {
      var a, e := todo[0], effect(todo[0]);
      assert done + todo == done + [a] + todo[1..];
      UniqueSplit(done, a, todo[1..]);
      SweepStep(l, done, todo, effect);
      if e.Stop? {
        assert todo[..0] == [] && todo[0..] == todo && done + [] + todo == done + todo;
      } else {
        SweepIsPointwise(Affect(l, a.id, e), done + Remainder(a, e), todo[1..], effect, Sooner(wait, WaitOf(e)));
        RemainingStep(done, todo, effect);
      }
    }
  }

  lemma {:induction false} RemainingStep(done: seq<Artifact>, todo: seq<Artifact>, effect: Artifact -> Effect)
    requires todo != [] && !effect(todo[0]).Stop?
    ensures var n := Reached(todo, effect);
      done + Remainder(todo[0], effect(todo[0])) + Remaining(todo[1..][..n - 1], effect) + todo[1..][n - 1..] ==
      done + Remaining(todo[..n], effect) + todo[n..]
  {
    var n := Reached(todo, effect);
    assert todo[..n][0] == todo[0] && todo[..n][1..] == todo[1..][..n - 1];
    assert todo[1..][n - 1..] == todo[n..];
  }

  lemma {:induction false} SweepWaits(l: Lifecycle, todo: seq<Artifact>, effect: Artifact -> Effect, wait: nat, waits: seq<nat>)
    requires Smallest(wait, waits)
    ensures Smallest(Sweep(l, todo, effect, wait).wait, waits + Waits(todo[..Reached(todo, effect)], effect))
    decreases |todo|
  {
    if todo == [] || effect(todo[0]).Stop? {
      assert todo[..0] == [] && waits + [] == waits;
    } else {
      var e, n := effect(todo[0]), Reached(todo, effect);
      SoonerSmallest(wait, waits, WaitOf(e));
      SweepWaits(Affect(l, todo[0].id, e), todo[1..], effect, Sooner(wait, WaitOf(e)), waits + [WaitOf(e)]);
      assert todo[..n][0] == todo[0] && todo[..n][1..] == todo[1..][..n - 1];
      assert (waits + [WaitOf(e)]) + Waits(todo[1..][..n - 1], effect) == waits + Waits(todo[..n], effect);
    }
  }

  /** The record after one pass, entry by entry: up to the first error every pending
      artifact has been handled exactly once, on its own effect; the rest is as it was. */
  ghost predicate PassSpec(l: Lifecycle, effect: Artifact -> Effect, r: PassResult) {
    var first := if l.resolved.None? then Keep else effect(l.resolved.value);
    if first.Stop? then r == PassResult(l, 0, false)
    else
      var n := Reached(l.pending, effect);
      && r.record.pending == Remaining(l.pending[..n], effect) + l.pending[n..]
      && r.record.resolved == (if l.resolved.None? then None else Some(AfterOwn(l.resolved.value, first)))
      && r.record.phase == (if first.Resumed? && l.phase.Resuming? then Running else l.phase)
      && r.record.lastHibernate == l.lastHibernate
      && (r.ok <==> n == |l.pending|)
      && Smallest(r.wait, [WaitOf(first)] + Waits(l.pending[..n], effect))
  }

  function AfterOwn(a: Artifact, e: Effect): Artifact {
    match e
    case Stop => a
    case Keep => a
    case Resumed(now) => a.(resumedAt := Some(now))
    case Noted(phase, _) => a.(cleanup := phase)
  }

  lemma OwnStep(l: Lifecycle, e: Effect)
    requires WellFormed(l) && l.resolved.Some? && !e.Stop?
    ensures var next := Affect(l, l.resolved.value.id, e);
      && WellFormed(next) && next.pending == l.pending && next.lastHibernate == l.lastHibernate
      && next.phase == (if e.Resumed? && l.phase.Resuming? then Running else l.phase)
      && next.resolved == Some(AfterOwn(l.resolved.value, e))
  {
  }

  lemma {:induction false} SweepAll(l: Lifecycle, effect: Artifact -> Effect, first: nat)
    requires WellFormed(l) && Sound(effect)
    ensures var n, r := Reached(l.pending, effect), Sweep(l, l.pending, effect, first);
      && WellFormed(r.record) && r.record == l.(pending := r.record.pending)
      && r.record.pending == Remaining(l.pending[..n], effect) + l.pending[n..]
      && (r.ok <==> n == |l.pending|)
      && Smallest(r.wait, [first] + Waits(l.pending[..n], effect))
  {
    var n := Reached(l.pending, effect);
    assert [] + l.pending == l.pending;
    assert Smallest(first, [first]);
    SweepIsPointwise(l, [], l.pending, effect, first);
    SweepWaits(l, l.pending, effect, first, [first]);
    assert [] + Remaining(l.pending[..n], effect) == Remaining(l.pending[..n], effect);
  }

  lemma {:induction false} PassIsPointwise(l: Lifecycle, effect: Artifact -> Effect)
    requires WellFormed(l) && Sound(effect)
    ensures WellFormed(Pass(l, effect).record) && PassSpec(l, effect, Pass(l, effect))
  {
    if l.resolved.None? {
      SweepAll(l, effect, 0);
    } else {
      var e := effect(l.resolved.value);
      if !e.Stop? {
        OwnStep(l, e);
        SweepAll(Affect(l, l.resolved.value.id, e), effect, WaitOf(e));
      }
    }
  }

  // ----- The controller

  function Effects(answers: Artifact -> Answers): Artifact -> Effect {
    a => EffectOf(a, answers(a))
  }

  /** Whatever the cluster and the object store answer, the controller's pass is pointwise. */
  lemma {:induction false} AnsweredPassIsPointwise(l: Lifecycle, answers: Artifact -> Answers)
    requires WellFormed(l)
    ensures WellFormed(Pass(l, Effects(answers)).record) && PassSpec(l, Effects(answers), Pass(l, Effects(answers)))
  {
    forall a ensures Effects(answers)(a).Resumed? ==> a.resumedAt.None? {
      assert Judge(a, answers(a)).Resume? ==> a.resumedAt.None?;
    }
    PassIsPointwise(l, Effects(answers));
  }

  method SpliceCleanup(pending: seq<Artifact>, id: Identity, cleanup: CleanupPhase) returns (spliced: seq<Artifact>)
    ensures spliced == Settle(pending, id, cleanup)
  {
    for i := 0 to |pending|
      invariant id !in Ids(pending[..i])
    {
      assert pending[..i + 1] == pending[..i] + [pending[i]];
      if pending[i].id == id {
        assert pending == pending[..i] + [pending[i]] + pending[i + 1..];
        SettleInPlace(pending[..i], pending[i], pending[i + 1..], cleanup);
        if Finished(cleanup) { return pending[..i] + pending[i + 1..]; }
        return pending[..i] + [pending[i].(cleanup := cleanup)] + pending[i + 1..];
      }
    }
    assert pending[..|pending|] == pending;
    SettleAbsent(pending, id, cleanup);
    return pending;
  }

  class RetentionController {
    var phase: LifecyclePhase
    var lastHibernate: Option<string>
    var resolved: Option<Artifact>
    var pending: seq<Artifact>

    function Value(): Lifecycle
      reads this
    {
      Lifecycle(phase, lastHibernate, resolved, pending)
    }

    /** Notes the outcome on the resolved artifact, or splices it into the pending list. */
    method RecordArtifactCleanup(id: Identity, cleanup: CleanupPhase)
      modifies this`resolved, this`pending
      ensures Value() == RecordCleanup(old(Value()), id, cleanup)
    {
      if resolved.Some? && resolved.value.id == id {
        resolved := Some(resolved.value.(cleanup := cleanup));
        return;
      }
      pending := SpliceCleanup(pending, id, cleanup);
    }

    method MarkRestoreCompleted(now: int)
      modifies this`resolved, this`phase
      ensures Value() == MarkResumed(old(Value()), now)
    {
      if resolved.Some? {
        resolved := Some(resolved.value.(resumedAt := Some(now)));
        if phase.Resuming? { phase := Running; }
      }
    }

    /** Persists an outcome; a failed write stops the pass. */
    method Record(id: Identity, cleanup: CleanupPhase, after: nat, saved: bool) returns (wait: nat, ok: bool)
      modifies this`resolved, this`pending
      ensures Value() == if saved then RecordCleanup(old(Value()), id, cleanup) else old(Value())
      ensures ok == saved && wait == if saved then after else 0
    {
      if !saved { return 0, false; }
      RecordArtifactCleanup(id, cleanup);
      return after, true;
    }

    method DeleteResumeArtifact(id: Identity, w: Answers) returns (wait: nat, ok: bool)
      modifies this`resolved, this`pending
      ensures var e := Outcome(DeleteVerdict(id), w);
        Value() == Affect(old(Value()), id, e) && ok == !e.Stop? && wait == WaitOf(e)
      ensures var usable := ArtifactPrefix.RootPrefix(id.manifestKey).Some?;
        && ok == w.saved && wait == (if w.saved && usable && !w.deleted then 60_000_000_000 else 0)
        && Value() == if !w.saved then old(Value())
                      else RecordCleanup(old(Value()), id, if !usable then Blocked else if w.deleted then Completed else Scheduled)
    {
      var prefix := ArtifactPrefix.ArtifactRootPrefix(id.manifestKey);
      if prefix.None? {
        wait, ok := Record(id, Blocked, 0, w.saved);
      } else if !w.deleted {
        wait, ok := Record(id, Scheduled, RETRY_INTERVAL, w.saved);
      } else {
        wait, ok := Record(id, Completed, 0, w.saved);
      }
    }

    method ApplyRetentionMode(id: Identity, resumedAt: int, mode: Mode, w: Answers) returns (wait: nat, ok: bool)
      modifies this`resolved, this`pending
      ensures var e := Outcome(ModeVerdict(id, resumedAt, mode, w.now), w);
        Value() == Affect(old(Value()), id, e) && ok == !e.Stop? && wait == WaitOf(e)
    {
      match mode {
        case Retain => wait, ok := Record(id, Retained, 0, w.saved);
        case DeleteAfterResume => wait, ok := DeleteResumeArtifact(id, w);
        case Ttl(seconds) =>
          if seconds <= 0 {
            wait, ok := Record(id, Blocked, 0, w.saved);
            return;
          }
          var left := WaitFor(resumedAt, seconds, w.now);
          if left > 0 {
            wait, ok := Record(id, Scheduled, left, w.saved);
          } else {
            wait, ok := DeleteResumeArtifact(id, w);
          }
        case UnknownMode => wait, ok := Record(id, Blocked, 0, w.saved);
      }
    }

    method ReconcileArtifactRetention(a: Artifact, w: Answers) returns (wait: nat, ok: bool)
      modifies this
      ensures Value() == Affect(old(Value()), a.id, EffectOf(a, w))
      ensures ok == !EffectOf(a, w).Stop? && wait == WaitOf(EffectOf(a, w))
    {
      if CleanupTerminal(a.cleanup) { return 0, true; }
      if a.resumedAt.None? {
        if w.database.UnknownState? { return 0, false; }
        if w.database.NotReady? { return 0, true; }
        if !w.saved { return 0, false; }
        MarkRestoreCompleted(w.now);
        return PROBE_INTERVAL, true;
      }
      match w.backend {
        case Missing => wait, ok := Record(a.id, Blocked, 0, w.saved);
        case Unreadable => return 0, false;
        case Unsuitable => wait, ok := Record(a.id, Blocked, 0, w.saved);
        case Usable(mode) => wait, ok := ApplyRetentionMode(a.id, a.resumedAt.value, mode, w);
      }
    }

    /** The pass ranges over the list as it stood when the loop began, while recording rewrites it. */
    method ReconcileResumeArtifactRetention(answers: Artifact -> Answers) returns (wait: nat, ok: bool)
      modifies this
      ensures PassResult(Value(), wait, ok) == Pass(old(Value()), Effects(answers))
    {
      wait, ok := 0, true;
      if resolved.Some? {
        wait, ok := ReconcileArtifactRetention(resolved.value, answers(resolved.value));
        if !ok { return; }
      }
      var todo, i := pending, 0;
      ghost var effect := Effects(answers);
      ghost var whole := Sweep(Value(), todo, effect, wait);
      assert todo[0..] == todo;
      while i < |todo|
        invariant 0 <= i <= |todo|
        invariant Sweep(Value(), todo[i..], effect, wait) == whole
      {
        assert todo[i..][1..] == todo[i + 1..];
        var next, handled := ReconcileArtifactRetention(todo[i], answers(todo[i]));
        if !handled { return wait, false; }
        wait := Sooner(wait, next);
        i := i + 1;
      }
    }
  }
}
