/** The snapshot's live reads of referenced ingest runs, behind a small validation cache. */
module RunCache {
  import opened Base

  const MAX_READS := 16
  const VALIDATION_TTL := 30_000_000_000

  /** Nanoseconds after Go's zero time. */
  type Instant = t: int | t > 0 witness 1

  /** Only namespaced IngestRun owners of one namespace are considered, so name and UID identify one. */
  datatype Id = Id(name: string, uid: string)

  datatype Run = Run(namespace: string, name: string, uid: string, instance: string, state: string)

  datatype Cached = Cached(run: Run, validatedAt: Instant)

  datatype Answer = NotFound | Unreadable | Found(run: Run)

  function IdOf(run: Run): Id {
    Id(run.name, run.uid)
  }

  // ----- Choosing the referenced names, best-ranked Jobs first

  /** Distinct owner names in order of first appearance. */
  function Names(owners: seq<Id>): seq<string> {
    if owners == [] then []
    else
      var before, last := Names(owners[..|owners| - 1]), owners[|owners| - 1].name;
      if last in before then before else before + [last]
  }

  function Uids(owners: seq<Id>, name: string): set<string> {
    set o | o in owners && o.name == name :: o.uid
  }

  function Kept(names: seq<string>): seq<string> {
    if |names| <= MAX_READS then names else names[..MAX_READS]
  }

  ghost predicate Distinct(names: seq<string>) {
    forall i, j | 0 <= i < j < |names| :: names[i] != names[j]
  }

  lemma {:induction false} NamesDistinct(owners: seq<Id>)
    ensures Distinct(Names(owners))
    ensures forall n :: n in Names(owners) <==> exists o | o in owners :: o.name == n
  {
    if owners != [] {
      var rest, last := owners[..|owners| - 1], owners[|owners| - 1];
      NamesDistinct(rest);
      assert owners == rest + [last];
      forall n ensures n in Names(owners) <==> exists o | o in owners :: o.name == n {
        if n == last.name { assert last in owners; }
        if o :| o in rest && o.name == n { assert o in owners; }
      }
    }
  }

  /** Keeps the first names and all their UIDs; `owners` come in rank order. */
  method SelectOwners(owners: seq<Id>)
    returns (names: seq<string>, uids: map<string, set<string>>, truncated: bool)
    ensures names == Kept(Names(owners)) && (truncated <==> |Names(owners)| > MAX_READS)
    ensures uids.Keys == set n | n in names
    ensures forall n | n in names :: uids[n] == Uids(owners, n)
  {
    var seen: set<Id> := {};
    names, uids, truncated := [], map[], false;
    for i := 0 to |owners|
      invariant seen == set o | o in owners[..i]
      invariant names == Kept(Names(owners[..i])) && (truncated <==> |Names(owners[..i])| > MAX_READS)
      invariant uids.Keys == set n | n in names
      invariant forall n | n in names :: uids[n] == Uids(owners[..i], n)
    {
      var owner := owners[i];
      Considered(owners, i);
      if owner !in seen {
        seen := seen + {owner};
        if owner.name in uids {
          uids := uids[owner.name := uids[owner.name] + {owner.uid}];
        } else if |names| == MAX_READS {
          truncated := true;
        } else {
          uids := uids[owner.name := {owner.uid}];
          names := names + [owner.name];
        }
      }
    }
    assert owners[..|owners|] == owners;
  }

  /** One more owner: its name is appended if new, and only its own name gains a UID. */
  lemma Considered(owners: seq<Id>, i: nat)
    requires i < |owners|
    ensures var before, after, owner := owners[..i], owners[..i + 1], owners[i];
      && Names(after) == (if owner.name in Names(before) then Names(before) else Names(before) + [owner.name])
      && (set o | o in after) == (set o | o in before) + {owner}
      && (forall n :: Uids(after, n) == Uids(before, n) + if n == owner.name then {owner.uid} else {})
      && (owner in before ==> owner.name in Names(before))
      && (owner.name !in Names(before) ==> Uids(before, owner.name) == {})
  {
    var before, after, owner := owners[..i], owners[..i + 1], owners[i];
    assert after == before + [owner] && after[..i] == before;
    NamesDistinct(before);
    assert forall o :: o in after <==> o in before || o == owner;
  }

  /** Every kept name appears before any name that was left out. */
  lemma {:induction false} KeptAppearFirst(owners: seq<Id>, kept: string, dropped: string)
    requires kept in Kept(Names(owners)) && dropped in Names(owners) && dropped !in Kept(Names(owners))
    ensures exists i | 0 <= i < |owners| && owners[i].name == kept :: forall j | 0 <= j <= i :: owners[j].name != dropped
  {
    var names := Names(owners);
    var p :| 0 <= p < |Kept(names)| && Kept(names)[p] == kept;
    var q :| 0 <= q < |names| && names[q] == dropped;
    assert forall k | 0 <= k < |Kept(names)| :: names[k] in Kept(names) by {
      assert forall k | 0 <= k < |Kept(names)| :: names[k] == Kept(names)[k];
    }
    assert p < q;
    FirstAppearance(owners, p, q);
  }

  lemma {:induction false} FirstAppearance(owners: seq<Id>, p: nat, q: nat)
    requires p < q < |Names(owners)|
    ensures exists i | 0 <= i < |owners| && owners[i].name == Names(owners)[p] ::
      forall j | 0 <= j <= i :: owners[j].name != Names(owners)[q]
  {
    var rest, last := owners[..|owners| - 1], owners[|owners| - 1];
    var before := Names(rest);
    assert owners == rest + [last] && Names(owners)[..|before|] == before;
    if q < |before| {
      FirstAppearance(rest, p, q);
      var i :| 0 <= i < |rest| && rest[i].name == before[p] && forall j | 0 <= j <= i :: rest[j].name != before[q];
      assert forall j | 0 <= j <= i :: owners[j] == rest[j];
    } else {
      NamesDistinct(rest);
      assert before[p] in before;
      var o :| o in rest && o.name == before[p];
      var i :| 0 <= i < |rest| && rest[i] == o;
      forall j | 0 <= j <= i ensures owners[j].name != last.name {
        assert owners[j] == rest[j] && rest[j] in rest;
      }
      assert owners[i] == rest[i];
    }
  }

  // ----- The cache

  type Cache = map<Id, Cached>

  ghost predicate OnePerName(cache: Cache) {
    forall a, b | a in cache && b in cache :: a.name == b.name ==> a == b
  }

  lemma {:induction false} AtMostOneEach(ids: set<Id>, names: set<string>)
    requires forall a, b | a in ids && b in ids :: a.name == b.name ==> a == b
    requires forall a | a in ids :: a.name in names
    ensures |ids| <= |names|
    decreases ids
  {
    if ids != {} {
      var a :| a in ids;
      AtMostOneEach(ids - {a}, names - {a.name});
    }
  }

  lemma {:induction false} NameCount(names: seq<string>)
    ensures |set n | n in names| <= |names|
  {
    if names != [] {
      var rest, last := names[..|names| - 1], names[|names| - 1];
      NameCount(rest);
      assert (set n | n in names) == (set n | n in rest) + {last};
    }
  }

  /** A cached run is used only for the one UID referenced under its name, and not for long. */
  predicate Usable(uids: map<string, set<string>>, now: int, id: Id, cached: Cached) {
    id.name in uids && id.uid in uids[id.name] && |uids[id.name]| == 1 && now < cached.validatedAt + VALIDATION_TTL
  }

  function Loaded(cache: Cache, uids: map<string, set<string>>, now: int): Cache {
    map id | id in cache && Usable(uids, now, id, cache[id]) :: cache[id]
  }

  function Others(cache: Cache, name: string): Cache {
    map id | id in cache && id.name != name :: cache[id]
  }

  /** No other entry was validated earlier, or at the same time and comes first by identity. */
  ghost predicate Oldest(cache: Cache, id: Id) {
    id in cache && forall other | other in cache :: !Earlier(other, cache[other].validatedAt, id, cache[id].validatedAt)
  }

  predicate Earlier(a: Id, at: int, b: Id, bt: int) {
    at < bt || (at == bt && IdLess(a, b))
  }

  lemma EarlierTransitive(a: Id, at: int, b: Id, bt: int, c: Id, ct: int)
    requires Earlier(b, bt, a, at) && !Earlier(c, ct, a, at)
    ensures !Earlier(c, ct, b, bt)
  {
    if at == bt == ct && IdLess(c, b) { TextTransitive(Key(c), Key(b), Key(a)); }
  }

  /** Which entry that is does not depend on the order of the map. */
  lemma {:induction false} OldestUnique(cache: Cache, a: Id, b: Id)
    requires Oldest(cache, a) && Oldest(cache, b)
    requires NUL !in a.name && NUL !in b.name
    ensures a == b
  {
    TextOrder(Key(a), Key(b));
    assert Key(a) == Key(b);
    FirstFieldsAgree(NUL, a.name, b.name, a.uid, b.uid);
    FirstFieldsAgree(NUL, b.name, a.name, b.uid, a.uid);
  }

  function Key(id: Id): string {
    id.name + [NUL] + id.uid
  }

  predicate IdLess(a: Id, b: Id) {
    TextLess(Key(a), Key(b))
  }

  method FindOldest(cache: Cache) returns (oldest: Id)
    requires |cache| > 0
    ensures Oldest(cache, oldest)
  {
    var ids := cache.Keys;
    oldest := Id("", "");
    var oldestTime: int := 0;
    while ids != {}
      invariant ids <= cache.Keys
      invariant ids == cache.Keys || (oldest in cache && oldestTime == cache[oldest].validatedAt)
      invariant ids == cache.Keys ==> oldestTime == 0
      invariant forall id | id in cache && id !in ids :: !Earlier(id, cache[id].validatedAt, oldest, oldestTime)
      decreases ids
    {
      var id :| id in ids;
      var t := cache[id].validatedAt;
      if oldestTime == 0 || t < oldestTime || (t == oldestTime && IdLess(id, oldest)) {
        forall other | other in cache && other !in ids ensures !Earlier(other, cache[other].validatedAt, id, t) {
          EarlierTransitive(oldest, oldestTime, id, t, other, cache[other].validatedAt);
        }
        TextOrder(Key(id), Key(id));
        oldest, oldestTime := id, t;
      }
      ids := ids - {id};
    }
  }

  /** The cache after storing a run; when it would overflow, its oldest entry makes room. */
  ghost predicate Stores(before: Cache, run: Run, now: Instant, after: Cache) {
    var others := Others(before, run.name);
    if |others| < MAX_READS then after == others[IdOf(run) := Cached(run, now)]
    else exists id | Oldest(others, id) :: after == (others - {id})[IdOf(run) := Cached(run, now)]
  }

  lemma {:induction false} StoreBounded(before: Cache, run: Run, now: Instant, after: Cache)
    requires |before| <= MAX_READS && OnePerName(before) && Stores(before, run, now, after)
    ensures |after| <= MAX_READS && OnePerName(after)
  {
    var others := Others(before, run.name);
    if |others| < MAX_READS {
      Grown(others, run, now);
    } else {
      FewerOthers(before, run.name);
      var id :| Oldest(others, id) && after == (others - {id})[IdOf(run) := Cached(run, now)];
      Evicted(others, id);
      Grown(others - {id}, run, now);
    }
  }

  lemma Evicted(cache: Cache, id: Id)
    requires id in cache
    ensures |cache - {id}| == |cache| - 1
  {
    assert (cache - {id}).Keys == cache.Keys - {id};
  }

  lemma FewerOthers(cache: Cache, name: string)
    ensures |Others(cache, name)| <= |cache|
  {
    Included(Others(cache, name).Keys, cache.Keys);
  }

  lemma {:induction false} Included<T>(a: set<T>, b: set<T>)
    requires a <= b
    ensures |a| <= |b|
  {
    if a != {} {
      var x :| x in a;
      Included(a - {x}, b - {x});
    }
  }

  lemma Grown(cache: Cache, run: Run, now: Instant)
    requires OnePerName(cache) && forall id | id in cache :: id.name != run.name
    ensures var after := cache[IdOf(run) := Cached(run, now)]; |after| <= |cache| + 1 && OnePerName(after)
  {
    Included(cache[IdOf(run) := Cached(run, now)].Keys, cache.Keys + {IdOf(run)});
  }
}
