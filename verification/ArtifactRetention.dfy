/** Hibernation artifacts after a resume: the lifecycle record that tracks them, and
    the three mutations applied to it. */
module ArtifactRetention {
  import opened Base

  datatype Identity = Identity(backend: string, manifestKey: string)

  datatype CleanupPhase = NotStarted | Scheduled | Retained | Completed | Blocked

  predicate Finished(phase: CleanupPhase) {
    phase.Retained? || phase.Completed?
  }

  predicate CleanupTerminal(phase: CleanupPhase) {
    Finished(phase) || phase.Blocked?
  }

  datatype Artifact = Artifact(id: Identity, resumedAt: Option<int>, cleanup: CleanupPhase)

  datatype LifecyclePhase = Unset | Running | Hibernating | Hibernated | Resuming | Failed

  /** `lastHibernate` names the most recent completed hibernation. */
  datatype Lifecycle = Lifecycle(
    phase: LifecyclePhase, lastHibernate: Option<string>,
    resolved: Option<Artifact>, pending: seq<Artifact>)

  // ----- Mutations of the record

  function Without(pending: seq<Artifact>, id: Identity): seq<Artifact> {
    if pending == [] then []
    else if pending[0].id == id then Without(pending[1..], id)
    else [pending[0]] + Without(pending[1..], id)
  }

  /** The first pending entry of this identity leaves the list when its cleanup finished, or notes its phase. */
  function Settle(pending: seq<Artifact>, id: Identity, phase: CleanupPhase): seq<Artifact> {
    if pending == [] then []
    else if pending[0].id == id then
      if Finished(phase) then pending[1..] else [pending[0].(cleanup := phase)] + pending[1..]
    else [pending[0]] + Settle(pending[1..], id, phase)
  }

  /** A restored artifact that still owes cleanup and is not the new source moves to the pending list. */
  predicate CarriesOver(previous: Option<Artifact>, id: Identity) {
    previous.Some? && previous.value.resumedAt.Some? && !Finished(previous.value.cleanup) && previous.value.id != id
  }

  function ResolveRestore(l: Lifecycle, id: Identity): Lifecycle {
    var kept := Without(l.pending, id);
    l.(phase := Resuming,
       pending := if CarriesOver(l.resolved, id) then kept + [l.resolved.value] else kept,
       resolved := Some(Artifact(id, None, NotStarted)))
  }

  function MarkResumed(l: Lifecycle, now: int): Lifecycle {
    if l.resolved.None? then l
    else l.(resolved := Some(l.resolved.value.(resumedAt := Some(now))),
            phase := if l.phase.Resuming? then Running else l.phase)
  }

  function RecordCleanup(l: Lifecycle, id: Identity, phase: CleanupPhase): Lifecycle {
    if l.resolved.Some? && l.resolved.value.id == id
    then l.(resolved := Some(l.resolved.value.(cleanup := phase)))
    else l.(pending := Settle(l.pending, id, phase))
  }

  // ----- Identities in the record

  function Ids(pending: seq<Artifact>): set<Identity> {
    set a | a in pending :: a.id
  }

  predicate Unique(pending: seq<Artifact>) {
    pending == [] || (pending[0].id !in Ids(pending[1..]) && Unique(pending[1..]))
  }

  function Tracked(l: Lifecycle): set<Identity> {
    Ids(l.pending) + if l.resolved.Some? then {l.resolved.value.id} else {}
  }

  /** No identity twice; everything pending has been resumed and still owes something. */
  ghost predicate WellFormed(l: Lifecycle) {
    && Unique(l.pending)
    && (l.resolved.Some? ==> l.resolved.value.id !in Ids(l.pending))
    && (forall a | a in l.pending :: a.resumedAt.Some? && !Finished(a.cleanup))
  }

  lemma IdsCons(a: Artifact, rest: seq<Artifact>)
    ensures Ids([a] + rest) == {a.id} + Ids(rest)
  {
    assert forall x :: x in [a] + rest <==> x == a || x in rest;
  }

  lemma {:induction false} IdsAppend(pending: seq<Artifact>, a: Artifact)
    ensures Ids(pending + [a]) == Ids(pending) + {a.id}
    ensures Unique(pending) && a.id !in Ids(pending) ==> Unique(pending + [a])
  {
    assert forall x :: x in pending + [a] <==> x in pending || x == a;
    if pending != [] {
      var rest := pending[1..];
      assert pending == [pending[0]] + rest && (pending + [a])[1..] == rest + [a];
      IdsAppend(rest, a);
      IdsCons(pending[0], rest);
      assert (pending + [a])[0] == pending[0];
    } else {
      assert pending + [a] == [a] && [a][1..] == [];
    }
  }

  lemma {:induction false} WithoutIds(pending: seq<Artifact>, id: Identity)
    requires Unique(pending)
    ensures Unique(Without(pending, id)) && Ids(Without(pending, id)) == Ids(pending) - {id}
    ensures forall a :: a in Without(pending, id) <==> a in pending && a.id != id
  {
    if pending != [] {
      var rest := pending[1..];
      assert pending == [pending[0]] + rest;
      WithoutIds(rest, id);
      IdsCons(pending[0], rest);
      IdsCons(pending[0], Without(rest, id));
    }
  }

  lemma {:induction false} SettleIds(pending: seq<Artifact>, id: Identity, phase: CleanupPhase)
    requires Unique(pending)
    ensures Unique(Settle(pending, id, phase))
    ensures Ids(Settle(pending, id, phase)) == if Finished(phase) then Ids(pending) - {id} else Ids(pending)
    ensures forall a | a in Settle(pending, id, phase) :: a in pending || (a.cleanup == phase && !Finished(phase) && exists b | b in pending :: a == b.(cleanup := phase))
  {
    if pending != [] {
      var rest := pending[1..];
      assert pending == [pending[0]] + rest;
      SettleIds(rest, id, phase);
      IdsCons(pending[0], rest);
      IdsCons(pending[0].(cleanup := phase), rest);
      IdsCons(pending[0], Settle(rest, id, phase));
    }
  }

  // ----- Every mutation keeps the record well formed

  lemma {:induction false} ResolveRestoreKeeps(l: Lifecycle, id: Identity)
    requires WellFormed(l)
    ensures WellFormed(ResolveRestore(l, id))
    ensures ResolveRestore(l, id).phase == Resuming && ResolveRestore(l, id).resolved == Some(Artifact(id, None, NotStarted))
    ensures forall a :: a in ResolveRestore(l, id).pending <==>
      (a in l.pending && a.id != id) || (CarriesOver(l.resolved, id) && a == l.resolved.value)
    ensures Tracked(ResolveRestore(l, id)) ==
      {id} + Ids(l.pending) + (if CarriesOver(l.resolved, id) then {l.resolved.value.id} else {})
  {
    WithoutIds(l.pending, id);
    var kept := Without(l.pending, id);
    if CarriesOver(l.resolved, id) { IdsAppend(kept, l.resolved.value); }
  }

  lemma {:induction false} RecordCleanupKeeps(l: Lifecycle, id: Identity, phase: CleanupPhase)
    requires WellFormed(l)
    ensures WellFormed(RecordCleanup(l, id, phase))
    ensures Tracked(l) - (if Finished(phase) then {id} else {}) <= Tracked(RecordCleanup(l, id, phase)) <= Tracked(l)
  {
    SettleIds(l.pending, id, phase);
  }
}
