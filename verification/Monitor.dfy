/** The Console's latest-value monitor: one current snapshot, and one channel of
    capacity one for each subscriber. */
module Monitor {
  import opened Base

  /** `content` is the JSON encoding without the observation time and the stale flag. */
  datatype Snapshot = Snapshot(observedAt: string, stale: bool, content: string)

  datatype Update = Update(id: nat, snapshot: Snapshot)

  predicate Same(a: Snapshot, b: Snapshot) {
    a.stale == b.stale && a.content == b.content
  }

  datatype Core = Core(current: Option<Snapshot>, hash: string, ready: bool, sequence: nat)

  function Fresh(snapshot: Snapshot): Snapshot {
    snapshot.(stale := false)
  }

  predicate Changes(m: Core, snapshot: Snapshot) {
    m.current.None? || m.hash != snapshot.content || m.current.value.stale
  }

  function Refreshed(m: Core, snapshot: Snapshot): Core {
    Core(Some(Fresh(snapshot)), snapshot.content, true, if Changes(m, snapshot) then m.sequence + 1 else m.sequence)
  }

  predicate GoesStale(m: Core) {
    m.current.Some? && !m.current.value.stale
  }

  function Staled(m: Core): Core {
    if GoesStale(m)
    then m.(ready := false, current := Some(m.current.value.(stale := true)), sequence := m.sequence + 1)
    else m.(ready := false)
  }

  /** The update a new subscriber finds waiting. */
  function Greeting(m: Core): Option<Update> {
    if m.current.None? then None else Some(Update(m.sequence, m.current.value))
  }

  class Monitor {
    var current: Option<Snapshot>
    var currentHash: string
    var ready: bool
    var sequence: nat
    var nextId: nat
    var subscribers: map<nat, Option<Update>>

    function Value(): Core
      reads this
    {
      Core(current, currentHash, ready, sequence)
    }

    constructor ()
      ensures Value() == Core(None, "", false, 0) && nextId == 0 && subscribers == map[]
    {
      current, currentHash, ready, sequence, nextId, subscribers := None, "", false, 0, 0, map[];
    }

    /** Receivers hold no lock: any of them may empty its channel at any moment. */
    method ReceiversMayTake()
      modifies this`subscribers
      ensures subscribers.Keys == old(subscribers.Keys)
      ensures forall id | id in subscribers :: subscribers[id].None? || subscribers[id] == old(subscribers)[id]
    {
      var takers: set<nat> := *;
      subscribers := map id | id in subscribers :: if id in takers then None else subscribers[id];
    }

    /** A blocking send: it proceeds only into an empty channel. */
    method Send(id: nat, update: Update)
      requires id in subscribers && subscribers[id].None?
      modifies this`subscribers
      ensures subscribers == old(subscribers)[id := Some(update)]
    {
      subscribers := subscribers[id := Some(update)];
    }

    /** Offers the update, else drains the channel and sends: whatever receivers do
        meanwhile, the second send finds the channel empty. */
    method Deliver(id: nat, update: Update)
      requires id in subscribers
      modifies this`subscribers
      ensures subscribers.Keys == old(subscribers.Keys)
      ensures subscribers[id].None? || subscribers[id] == Some(update)
      ensures forall i | i in subscribers && i != id :: subscribers[i].None? || subscribers[i] == old(subscribers)[i]
    {
      if subscribers[id].None? {
        Send(id, update);
      } else {
        ReceiversMayTake();
        if subscribers[id].Some? { subscribers := subscribers[id := None]; }
        ReceiversMayTake();
        Send(id, update);
      }
      ReceiversMayTake();
    }

    /** Each subscriber is left with this update or has taken it. */
    method PublishLocked(update: Update)
      modifies this`subscribers
      ensures subscribers.Keys == old(subscribers.Keys)
      ensures forall id | id in subscribers :: subscribers[id].None? || subscribers[id] == Some(update)
    {
      var remaining := subscribers.Keys;
      while remaining != {}
        invariant subscribers.Keys == old(subscribers.Keys) && remaining <= subscribers.Keys
        invariant forall id | id in subscribers && id !in remaining ::
          subscribers[id].None? || subscribers[id] == Some(update)
        decreases remaining
      {
        var id :| id in remaining;
        Deliver(id, update);
        remaining := remaining - {id};
      }
    }

    method Refresh(read: Option<Snapshot>)
      modifies this
      ensures Value() == if read.None? then Staled(old(Value())) else Refreshed(old(Value()), read.value)
      ensures read.Some? ==> ready && currentHash == read.value.content && current == Some(read.value.(stale := false))
      ensures read.None? ==> !ready && (old(current).None? ==> current.None?)
      ensures read.None? && old(current).Some? ==> current == Some(old(current).value.(stale := true))
      ensures var news := if read.None? then old(current).Some? && !old(current).value.stale
                          else old(current).None? || old(current).value.stale || old(currentHash) != read.value.content;
        sequence == if news then old(sequence) + 1 else old(sequence)
      ensures subscribers.Keys == old(subscribers.Keys) && nextId == old(nextId)
      ensures sequence == old(sequence) ==> subscribers == old(subscribers)
      ensures sequence != old(sequence) ==> forall id | id in subscribers ::
        subscribers[id].None? || subscribers[id] == Greeting(Value())
    {
      if read.None? {
        MarkStale();
        return;
      }
      var snapshot := Fresh(read.value);
      var changed := current.None? || currentHash != snapshot.content || current.value.stale;
      current, currentHash, ready := Some(snapshot), snapshot.content, true;
      if changed {
        sequence := sequence + 1;
        PublishLocked(Update(sequence, snapshot));
      }
    }

    method MarkStale()
      modifies this
      ensures Value() == Staled(old(Value()))
      ensures subscribers.Keys == old(subscribers.Keys) && nextId == old(nextId)
      ensures sequence == old(sequence) ==> subscribers == old(subscribers)
      ensures sequence != old(sequence) ==> forall id | id in subscribers ::
        subscribers[id].None? || subscribers[id] == Greeting(Value())
    {
      ready := false;
      if current.Some? && !current.value.stale {
        current := Some(current.value.(stale := true));
        sequence := sequence + 1;
        PublishLocked(Update(sequence, current.value));
      }
    }

    method Subscribe() returns (id: nat)
      modifies this`subscribers, this`nextId
      ensures id == old(nextId) && nextId == id + 1
      ensures subscribers == old(subscribers)[id := Greeting(Value())]
    {
      id := nextId;
      nextId := nextId + 1;
      subscribers := subscribers[id := None];
      if current.Some? { Send(id, Update(sequence, current.value)); }
    }

    method Cancel(id: nat)
      modifies this`subscribers
      ensures subscribers == old(subscribers) - {id}
    {
      subscribers := subscribers - {id};
    }
  }
}
