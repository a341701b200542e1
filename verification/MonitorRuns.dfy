/** Every interleaving of one publisher holding the monitor's lock, subscribers coming
    and going, and receivers emptying their channels without the lock. */
module MonitorRuns {
  import opened Base
  import opened Monitor

  /** Inside publishing: between subscribers, after a full channel was found, or about to send for good. */
  datatype Act =
    | Idle
    | Choosing(update: Update, remaining: set<nat>)
    | Draining(update: Update, remaining: set<nat>, id: nat)
    | Sending(update: Update, remaining: set<nat>, id: nat)

  /** `published` and `received` are history; a cancelled subscriber keeps its channel. */
  datatype System = System(
    m: Core, nextId: nat, subscribers: set<nat>, buffers: map<nat, Option<Update>>, act: Act,
    published: seq<Update>, received: map<nat, seq<Update>>)

  datatype Step =
    | Refresh(snapshot: Snapshot)
    | RefreshFails
    | Subscribe
    | Cancel(id: nat)
    | Pick(id: nat)
    | Drain
    | Send
    | Finish
    | Receive(id: nat)

  predicate Init(s: System) {
    s == System(Core(None, "", false, 0), 0, {}, map[], Idle, [], map[])
  }

  predicate Possible(s: System, step: Step) {
    match step
    case Refresh(_) => s.act.Idle?
    case RefreshFails => s.act.Idle?
    case Subscribe => s.act.Idle?
    case Cancel(_) => s.act.Idle?
    case Pick(id) => s.act.Choosing? && id in s.act.remaining && id in s.buffers
    case Drain => s.act.Draining?
    case Send => s.act.Sending? && s.act.id in s.buffers && s.buffers[s.act.id].None?
    case Finish => s.act.Choosing? && s.act.remaining == {}
    case Receive(id) => id in s.buffers && id in s.received && s.buffers[id].Some?
  }

  /** The lock is kept until every subscriber of that moment has been served. */
  function Publish(s: System, m: Core): System {
    if m.sequence == s.m.sequence || m.current.None? then s.(m := m)
    else
      var update := Update(m.sequence, m.current.value);
      s.(m := m, published := s.published + [update], act := Choosing(update, s.subscribers))
  }

  function DoPick(s: System, id: nat): System
    requires s.act.Choosing? && id in s.buffers
  {
    var rest := s.act.remaining - {id};
    if s.buffers[id].None?
    then s.(buffers := s.buffers[id := Some(s.act.update)], act := Choosing(s.act.update, rest))
    else s.(act := Draining(s.act.update, rest, id))
  }

  function DoReceive(s: System, id: nat): System
    requires Possible(s, Receive(id))
  {
    s.(received := s.received[id := s.received[id] + [s.buffers[id].value]], buffers := s.buffers[id := None])
  }

  function After(s: System, step: Step): System
    requires Possible(s, step)
  {
    match step
    case Refresh(snapshot) => Publish(s, Refreshed(s.m, snapshot))
    case RefreshFails => Publish(s, Staled(s.m))
    case Subscribe =>
      s.(nextId := s.nextId + 1, subscribers := s.subscribers + {s.nextId},
         buffers := s.buffers[s.nextId := Greeting(s.m)], received := s.received[s.nextId := []])
    case Cancel(id) => s.(subscribers := s.subscribers - {id})
    case Pick(id) => DoPick(s, id)
    case Drain => s.(buffers := s.buffers[s.act.id := None], act := Sending(s.act.update, s.act.remaining, s.act.id))
    case Send => s.(buffers := s.buffers[s.act.id := Some(s.act.update)], act := Choosing(s.act.update, s.act.remaining))
    case Finish => s.(act := Idle)
    case Receive(id) => DoReceive(s, id)
  }

  predicate Follows(s: System, step: Step, t: System) {
    Possible(s, step) && t == After(s, step)
  }

  ghost predicate IsRun(run: seq<System>, steps: seq<Step>) {
    && |run| == |steps| + 1 && Init(run[0])
    && forall i, j | 0 <= i < j < |run| && j == i + 1 :: Follows(run[i], steps[i], run[j])
  }

  // ----- The invariant

  predicate CoreGood(m: Core) {
    && (m.ready <==> m.current.Some? && !m.current.value.stale)
    && (m.current.Some? <==> m.sequence > 0)
    && (m.current.Some? ==> m.hash == m.current.value.content)
  }

  /** Updates are numbered from one, and each differs from the one before. */
  ghost predicate Numbered(published: seq<Update>) {
    && (forall k | 0 <= k < |published| :: published[k].id == k + 1)
    && (forall j, k | 0 <= j < k < |published| && k == j + 1 :: !Same(published[j].snapshot, published[k].snapshot))
  }

  predicate Current(m: Core, published: seq<Update>) {
    && m.sequence == |published|
    && (m.current.Some? && |published| > 0 ==> Same(m.current.value, published[|published| - 1].snapshot))
  }

  /** Everything handed to one subscriber so far, whether received or still in its channel. */
  function Handed(received: seq<Update>, buffer: Option<Update>): seq<Update> {
    if buffer.None? then received else received + [buffer.value]
  }

  /** The update is one that was published, apart from its observation time. */
  predicate Genuine(u: Update, published: seq<Update>) {
    1 <= u.id <= |published| && Same(u.snapshot, published[u.id - 1].snapshot)
  }

  ghost predicate Increasing(handed: seq<Update>) {
    forall j, k | 0 <= j < k < |handed| :: handed[j].id < handed[k].id
  }

  ghost predicate Honest(handed: seq<Update>, published: seq<Update>) {
    Increasing(handed) && forall k | 0 <= k < |handed| :: Genuine(handed[k], published)
  }

  function LastId(handed: seq<Update>): nat {
    if handed == [] then 0 else handed[|handed| - 1].id
  }

  function Waiting(act: Act): set<nat> {
    match act
    case Idle => {}
    case Choosing(_, remaining) => remaining
    case Draining(_, remaining, id) => remaining + {id}
    case Sending(_, remaining, id) => remaining + {id}
  }

  ghost predicate ActGood(s: System) {
    && Waiting(s.act) <= s.subscribers
    && (!s.act.Idle? ==> s.published != [] && s.act.update == s.published[|s.published| - 1])
    && (s.act.Draining? || s.act.Sending? ==> s.act.id !in s.act.remaining)
    && (s.act.Sending? ==> s.act.id in s.buffers && s.buffers[s.act.id].None?)
  }

  ghost predicate SubscriberGood(s: System, id: nat)
    requires id in s.buffers && id in s.received
  {
    var handed := Handed(s.received[id], s.buffers[id]);
    && Honest(handed, s.published)
    && (id in s.subscribers && id !in Waiting(s.act) ==> LastId(handed) == s.m.sequence)
    && (id in s.subscribers && id in Waiting(s.act) ==> LastId(handed) < s.m.sequence)
  }

  ghost predicate Inv(s: System) {
    && CoreGood(s.m) && Numbered(s.published) && Current(s.m, s.published) && ActGood(s)
    && s.buffers.Keys == s.received.Keys && s.subscribers <= s.buffers.Keys
    && (forall id | id in s.buffers :: id < s.nextId)
    && (forall id | id in s.buffers :: SubscriberGood(s, id))
  }

  // ----- Each step keeps it

  lemma Appended(handed: seq<Update>, published: seq<Update>, u: Update)
    requires Honest(handed, published) && Genuine(u, published) && LastId(handed) < u.id
    ensures Honest(handed + [u], published) && LastId(handed + [u]) == u.id
  {
    assert forall k | 0 <= k < |handed| :: handed[k].id <= LastId(handed);
  }

  lemma Dropped(handed: seq<Update>, published: seq<Update>, u: Update)
    requires Honest(handed + [u], published)
    ensures Honest(handed, published) && LastId(handed) < u.id
  {
    var all := handed + [u];
    assert forall k | 0 <= k < |handed| :: handed[k] == all[k];
    assert all[|handed|] == u && Genuine(all[|handed|], published);
    if handed != [] { assert all[|handed| - 1].id < all[|handed|].id; }
  }

  lemma PublishedMore(handed: seq<Update>, published: seq<Update>, u: Update)
    requires Honest(handed, published)
    ensures Honest(handed, published + [u]) && LastId(handed) <= |published|
  {
    forall k | 0 <= k < |handed| ensures Genuine(handed[k], published + [u]) {
      assert Genuine(handed[k], published);
    }
  }

  lemma {:induction false} PublishKeeps(s: System, m: Core)
    requires Inv(s) && s.act.Idle? && CoreGood(m) && m.current.Some? && m.sequence == s.m.sequence + 1
    requires s.m.current.Some? ==> !Same(s.m.current.value, m.current.value)
    ensures Inv(Publish(s, m))
  {
    var t := Publish(s, m);
    var u := Update(m.sequence, m.current.value);
    assert t.published == s.published + [u];
    forall id | id in t.buffers ensures SubscriberGood(t, id) {
      assert SubscriberGood(s, id);
      PublishedMore(Handed(s.received[id], s.buffers[id]), s.published, u);
    }
  }

  /** Only the stamp of the current snapshot moves. */
  lemma QuietKeeps(s: System, m: Core)
    requires Inv(s) && CoreGood(m) && m.sequence == s.m.sequence
    requires m.current.Some? == s.m.current.Some? && (m.current.Some? ==> Same(m.current.value, s.m.current.value))
    ensures Inv(s.(m := m))
  {
    forall id | id in s.buffers ensures SubscriberGood(s.(m := m), id) {
      assert SubscriberGood(s, id);
    }
  }

  lemma GreetingGood(s: System)
    requires CoreGood(s.m) && Current(s.m, s.published)
    ensures var handed := Handed([], Greeting(s.m)); Honest(handed, s.published) && LastId(handed) == s.m.sequence
  {
    if s.m.current.Some? { assert Genuine(Greeting(s.m).value, s.published); }
  }

  lemma {:induction false} SubscribeKeeps(s: System)
    requires Inv(s) && s.act.Idle?
    ensures Inv(After(s, Subscribe))
  {
    var t := After(s, Subscribe);
    GreetingGood(s);
    forall id | id in t.buffers ensures SubscriberGood(t, id) {
      if id != s.nextId { assert SubscriberGood(s, id); }
    }
  }

  /** The update in hand reaches an empty channel. */
  lemma {:induction false} DeliverKeeps(s: System, t: System, id: nat)
    requires Inv(s) && !s.act.Idle? && id in Waiting(s.act) && s.buffers[id].None?
    requires t == s.(buffers := s.buffers[id := Some(s.act.update)], act := t.act)
    requires t.act.Choosing? && t.act.update == s.act.update && t.act.remaining == Waiting(s.act) - {id}
    ensures Inv(t)
  {
    assert SubscriberGood(s, id);
    Appended(s.received[id], s.published, s.act.update);
    forall i | i in t.buffers ensures SubscriberGood(t, i) {
      assert SubscriberGood(s, i);
    }
  }

  lemma {:induction false} DrainKeeps(s: System)
    requires Inv(s) && s.act.Draining?
    ensures Inv(After(s, Drain))
  {
    var t, id := After(s, Drain), s.act.id;
    assert SubscriberGood(s, id);
    if s.buffers[id].Some? { Dropped(s.received[id], s.published, s.buffers[id].value); }
    forall i | i in t.buffers ensures SubscriberGood(t, i) {
      assert SubscriberGood(s, i);
    }
  }

  lemma {:induction false} ReceiveKeeps(s: System, id: nat)
    requires Inv(s) && Possible(s, Receive(id))
    ensures Inv(DoReceive(s, id))
  {
    var t := DoReceive(s, id);
    assert Handed(t.received[id], t.buffers[id]) == Handed(s.received[id], s.buffers[id]);
    forall i | i in t.buffers ensures SubscriberGood(t, i) {
      assert SubscriberGood(s, i);
    }
  }

  lemma {:induction false} QuietActKeeps(s: System, t: System)
    requires Inv(s) && t == s.(act := t.act, subscribers := t.subscribers) && ActGood(t)
    requires t.subscribers <= s.subscribers && Waiting(t.act) == Waiting(s.act)
    ensures Inv(t)
  {
    forall id | id in t.buffers ensures SubscriberGood(t, id) {
      assert SubscriberGood(s, id);
    }
  }

  lemma {:induction false} RefreshKeeps(s: System, m: Core)
    requires Inv(s) && s.act.Idle? && (m == Staled(s.m) || exists snapshot :: m == Refreshed(s.m, snapshot))
    ensures Inv(Publish(s, m))
  {
    if m.sequence == s.m.sequence { QuietKeeps(s, m); } else { PublishKeeps(s, m); }
  }

  lemma {:induction false} StepKeeps(s: System, step: Step)
    requires Inv(s) && Possible(s, step)
    ensures Inv(After(s, step))
  {
    match step {
      case Refresh(snapshot) => RefreshKeeps(s, Refreshed(s.m, snapshot));
      case RefreshFails => RefreshKeeps(s, Staled(s.m));
      case Subscribe => SubscribeKeeps(s);
      case Cancel(_) => QuietActKeeps(s, After(s, step));
      case Pick(id) =>
        if s.buffers[id].None? { DeliverKeeps(s, After(s, step), id); } else { QuietActKeeps(s, After(s, step)); }
      case Drain => DrainKeeps(s);
      case Send => DeliverKeeps(s, After(s, step), s.act.id);
      case Finish => QuietActKeeps(s, After(s, step));
      case Receive(id) => ReceiveKeeps(s, id);
    }
  }

  lemma {:induction false} RunInv(run: seq<System>, steps: seq<Step>, i: nat)
    requires IsRun(run, steps) && i < |run|
    ensures Inv(run[i])
  {
    if i > 0 {
      RunInv(run, steps, i - 1);
      assert Follows(run[i - 1], steps[i - 1], run[i]);
      StepKeeps(run[i - 1], steps[i - 1]);
    }
  }

  // ----- Theorems

  /** The send made after draining never blocks, in any interleaving. */
  lemma {:induction false} FinalSendNeverBlocks(run: seq<System>, steps: seq<Step>, i: nat)
    requires IsRun(run, steps) && i < |run| && run[i].act.Sending?
    ensures Possible(run[i], Send)
  {
    RunInv(run, steps, i);
  }

  /** What a subscriber receives has strictly increasing numbers, and each update is one
      that was published, apart from its observation time. */
  lemma {:induction false} ReceivedInOrder(run: seq<System>, steps: seq<Step>, i: nat, id: nat)
    requires IsRun(run, steps) && i < |run| && id in run[i].received
    ensures Honest(run[i].received[id], run[i].published)
  {
    RunInv(run, steps, i);
    assert SubscriberGood(run[i], id);
    var s := run[i];
    if s.buffers[id].Some? { Dropped(s.received[id], s.published, s.buffers[id].value); }
  }

  /** Between publishes a subscriber's channel holds the latest update, or is empty because
      the subscriber already has it, or nothing was ever published. */
  lemma {:induction false} LatestOrReceived(run: seq<System>, steps: seq<Step>, i: nat, id: nat)
    requires IsRun(run, steps) && i < |run| && run[i].act.Idle? && id in run[i].subscribers
    ensures id in run[i].buffers && id in run[i].received
    ensures run[i].buffers[id].Some? ==> run[i].buffers[id].value.id == run[i].m.sequence
    ensures run[i].buffers[id].None? ==> LastId(run[i].received[id]) == run[i].m.sequence
  {
    RunInv(run, steps, i);
    assert SubscriberGood(run[i], id);
  }

  /** Updates that bear the same number agree apart from the observation time, whoever received them. */
  lemma {:induction false} EqualNumbersAgree(
    run: seq<System>, steps: seq<Step>, i: nat, a: nat, b: nat, j: nat, k: nat)
    requires IsRun(run, steps) && i < |run| && a in run[i].received && b in run[i].received
    requires j < |run[i].received[a]| && k < |run[i].received[b]|
    requires run[i].received[a][j].id == run[i].received[b][k].id
    ensures Same(run[i].received[a][j].snapshot, run[i].received[b][k].snapshot)
  {
    ReceivedInOrder(run, steps, i, a);
    ReceivedInOrder(run, steps, i, b);
    assert Genuine(run[i].received[a][j], run[i].published) && Genuine(run[i].received[b][k], run[i].published);
  }

  /** Consecutive updates differ in content, the numbers run from one without gaps, and the
      monitor is ready exactly when it holds a snapshot that is not stale. */
  lemma {:induction false} PublishesChangesOnly(run: seq<System>, steps: seq<Step>, i: nat)
    requires IsRun(run, steps) && i < |run|
    ensures Numbered(run[i].published) && run[i].m.sequence == |run[i].published|
    ensures run[i].m.ready <==> run[i].m.current.Some? && !run[i].m.current.value.stale
    ensures run[i].m.current.Some? ==>
      |run[i].published| > 0 && Same(run[i].m.current.value, run[i].published[|run[i].published| - 1].snapshot)
  {
    RunInv(run, steps, i);
  }

  // ----- What the monitor shows

  /** Before step `i`, the last successful read is that of step `k`. */
  ghost predicate LastRead(steps: seq<Step>, k: nat, i: nat) {
    k < i <= |steps| && steps[k].Refresh? && forall j | k < j < i :: !steps[j].Refresh?
  }

  /** The current snapshot is the last one read, observation time included, and is stale exactly when a read failed since. */
  lemma {:induction false} CurrentIsLastRead(run: seq<System>, steps: seq<Step>, k: nat, i: nat)
    requires IsRun(run, steps) && LastRead(steps, k, i)
    ensures run[i].m.current == Some(steps[k].snapshot.(stale := exists j | k < j < i :: steps[j].RefreshFails?))
    decreases i
  {
    var step := steps[i - 1];
    assert Follows(run[i - 1], step, run[i]);
    if i - 1 > k {
      CurrentIsLastRead(run, steps, k, i - 1);
      assert step.RefreshFails? ==> exists j | k < j < i :: steps[j].RefreshFails?;
      assert (exists j | k < j < i :: steps[j].RefreshFails?) ==
        (step.RefreshFails? || exists j | k < j < i - 1 :: steps[j].RefreshFails?);
    }
  }

  /** Until a read succeeds there is nothing to show. */
  lemma {:induction false} NothingBeforeFirstRead(run: seq<System>, steps: seq<Step>, i: nat)
    requires IsRun(run, steps) && i < |run| && forall j | 0 <= j < i :: !steps[j].Refresh?
    ensures run[i].m.current.None? && run[i].published == []
  {
    if i > 0 {
      NothingBeforeFirstRead(run, steps, i - 1);
      assert Follows(run[i - 1], steps[i - 1], run[i]);
    }
  }

  /** A read publishes exactly when it is the first, differs in content, or ends a stale spell; a failed
      one exactly when it starts such a spell; nothing else does. */
  lemma {:induction false} PublishesEveryChange(run: seq<System>, steps: seq<Step>, i: nat)
    requires IsRun(run, steps) && i < |steps|
    ensures var s, t := run[i], run[i + 1];
      var news := match steps[i]
        case Refresh(snapshot) => s.m.current.None? || s.m.current.value.stale || s.m.current.value.content != snapshot.content
        case RefreshFails => s.m.current.Some? && !s.m.current.value.stale
        case _ => false;
      if news then t.m.current.Some? && t.published == s.published + [Update(|s.published| + 1, t.m.current.value)]
      else t.published == s.published
  {
    RunInv(run, steps, i);
    assert Follows(run[i], steps[i], run[i + 1]);
  }
}
