/** Resolving the ingest runs that current Jobs refer to: cached validations where they
    suffice, live reads otherwise. */
module RunSnapshot {
  import opened Base
  import opened JobRanking
  import opened RunCache

  type References = map<string, set<string>>

  function Referenced(owners: seq<Id>): References {
    map n | n in Kept(Names(owners)) :: Uids(owners, n)
  }

  predicate InScope(scope: Scope, run: Run) {
    run.namespace == scope.namespace && run.uid != "" && run.instance == scope.instance
  }

  /** A live answer counts only for the name asked and one of the UIDs referenced under it. */
  predicate Accepts(scope: Scope, uids: References, name: string, run: Run) {
    InScope(scope, run) && run.name == name && name in uids && run.uid in uids[name]
  }

  datatype Picked = Absent | Broken | Got(run: Run)

  ghost function RunNamed(loaded: Cache, name: string): Option<Run> {
    if id :| id in loaded && id.name == name then Some(loaded[id].run) else None
  }

  lemma RunNamedUnique(loaded: Cache, id: Id)
    requires OnePerName(loaded) && id in loaded
    ensures RunNamed(loaded, id.name) == Some(loaded[id].run)
  {
  }

  ghost function Pick(scope: Scope, uids: References, loaded: Cache, live: string -> Answer, name: string): Picked {
    var cached := RunNamed(loaded, name);
    if cached.Some? then Got(cached.value)
    else
      match live(name)
      case NotFound => Absent
      case Unreadable => Broken
      case Found(run) => if Accepts(scope, uids, name, run) then Got(run) else Absent
  }

  /** The runs of the given names in order, or none if a read failed. */
  ghost function Items(scope: Scope, uids: References, loaded: Cache, live: string -> Answer, names: seq<string>): Option<seq<Run>> {
    if names == [] then Some([])
    else
      var before := Items(scope, uids, loaded, live, names[..|names| - 1]);
      if before.None? then None
      else
        match Pick(scope, uids, loaded, live, names[|names| - 1])
        case Absent => before
        case Broken => None
        case Got(run) => Some(before.value + [run])
  }

  lemma {:induction false} BrokenPrefix(scope: Scope, uids: References, loaded: Cache, live: string -> Answer, names: seq<string>, i: nat)
    requires i <= |names| && Items(scope, uids, loaded, live, names[..i]).None?
    ensures Items(scope, uids, loaded, live, names).None?
  {
    if i < |names| {
      assert names[..|names| - 1][..i] == names[..i];
      BrokenPrefix(scope, uids, loaded, live, names[..|names| - 1], i);
    } else {
      assert names[..i] == names;
    }
  }

  // ----- The cache operations on values

  /** Accepted live reads, each with the time it is dated by. */
  type Log = set<(Run, Instant)>

  predicate Sound(scope: Scope, log: Log, id: Id, cached: Cached) {
    IdOf(cached.run) == id && InScope(scope, cached.run) && (cached.run, cached.validatedAt) in log
  }

  ghost predicate ValidCache(scope: Scope, log: Log, cache: Cache) {
    |cache| <= MAX_READS && OnePerName(cache) && forall id | id in cache :: Sound(scope, log, id, cache[id])
  }

  lemma LoadKeepsValid(scope: Scope, log: Log, cache: Cache, uids: References, now: Instant)
    requires ValidCache(scope, log, cache)
    ensures ValidCache(scope, log, Loaded(cache, uids, now))
  {
    Included(Loaded(cache, uids, now).Keys, cache.Keys);
  }

  lemma {:induction false} StoreKeepsValid(scope: Scope, log: Log, cache: Cache, run: Run, now: Instant, after: Cache)
    requires ValidCache(scope, log, cache) && InScope(scope, run) && (run, now) in log && Stores(cache, run, now, after)
    ensures ValidCache(scope, log, after)
  {
    StoreBounded(cache, run, now, after);
    forall id | id in after ensures Sound(scope, log, id, after[id]) {
      assert id == IdOf(run) || (id in cache && after[id] == cache[id]);
    }
  }

  /** `result` names exactly the runs of the loaded cache. */
  ghost predicate Projects(result: map<string, Run>, loaded: Cache) {
    && (forall id | id in loaded :: id.name in result && result[id.name] == loaded[id].run)
    && (forall name | name in result :: exists id :: id in loaded && id.name == name)
  }

  /** Drops what may not be used. */
  method SweepCache(cache: Cache, uids: References, now: Instant) returns (loaded: Cache)
    ensures loaded == Loaded(cache, uids, now)
  {
    loaded := cache;
    var ids := cache.Keys;
    while ids != {}
      invariant ids <= cache.Keys && loaded.Keys <= cache.Keys
      invariant forall id | id in loaded :: loaded[id] == cache[id]
      invariant forall id | id in cache :: id in loaded <==> id in ids || Usable(uids, now, id, cache[id])
      decreases ids
    {
      var id :| id in ids;
      if !Usable(uids, now, id, cache[id]) { loaded := loaded - {id}; }
      ids := ids - {id};
    }
  }

  method ProjectRuns(loaded: Cache) returns (result: map<string, Run>)
    requires OnePerName(loaded)
    ensures Projects(result, loaded)
  {
    result := map[];
    var ids := loaded.Keys;
    while ids != {}
      invariant ids <= loaded.Keys
      invariant forall id | id in loaded && id !in ids :: id.name in result && result[id.name] == loaded[id].run
      invariant forall name | name in result :: exists id :: id in loaded && id.name == name
      decreases ids
    {
      var id :| id in ids;
      result := result[id.name := loaded[id].run];
      ids := ids - {id};
    }
  }

  method StoreInto(cache: Cache, run: Run, now: Instant) returns (after: Cache)
    ensures Stores(cache, run, now, after)
  {
    after := Others(cache, run.name);
    if |after| >= MAX_READS {
      var oldest := FindOldest(after);
      after := after - {oldest};
    }
    after := after[IdOf(run) := Cached(run, now)];
  }

  // ----- Reading the names one by one

  predicate Recent(cache: Cache, now: int, run: Run) {
    IdOf(run) in cache && cache[IdOf(run)].run == run && now < cache[IdOf(run)].validatedAt + VALIDATION_TTL
  }

  /** After `i` names: what was returned is cached and recent, what is still to come is as
      loaded, and the cache holds nothing else. */
  ghost predicate Progress(loaded: Cache, cache: Cache, items: seq<Run>, names: seq<string>, i: nat, now: int)
    requires i <= |names|
  {
    && (forall run | run in items :: run.name in names[..i] && Recent(cache, now, run))
    && (forall id | id in loaded && id.name in names[i..] :: id in cache && cache[id] == loaded[id])
    && (forall id | id in cache :: id.name in names && (cache[id].run in items || id.name in names[i..]))
    && (forall id | id in cache && id.name in names[i..] :: id in loaded)
  }

  lemma Cut(names: seq<string>, i: nat)
    requires i < |names| && Distinct(names)
    ensures names[i] !in names[..i] && names[i] !in names[i + 1..]
    ensures forall n :: n in names[i..] <==> n == names[i] || n in names[i + 1..]
    ensures forall n :: n in names[..i + 1] <==> n == names[i] || n in names[..i]
  {
    assert names[i..] == [names[i]] + names[i + 1..] && names[..i + 1] == names[..i] + [names[i]];
  }

  /** A cached run is returned as it is. */
  lemma {:induction false} ServeCached(loaded: Cache, cache: Cache, items: seq<Run>, names: seq<string>, i: nat, now: int, id: Id)
    requires i < |names| && Distinct(names) && Progress(loaded, cache, items, names, i, now)
    requires OnePerName(cache) && id in loaded && id.name == names[i] && IdOf(loaded[id].run) == id
    requires now < loaded[id].validatedAt + VALIDATION_TTL
    ensures Progress(loaded, cache, items + [loaded[id].run], names, i + 1, now)
  {
    Cut(names, i);
    assert id in cache && cache[id] == loaded[id];
  }

  /** Nothing is returned for this name. */
  lemma {:induction false} ServeNothing(loaded: Cache, cache: Cache, items: seq<Run>, names: seq<string>, i: nat, now: int)
    requires i < |names| && Distinct(names) && Progress(loaded, cache, items, names, i, now)
    requires forall id | id in loaded :: id.name != names[i]
    ensures Progress(loaded, cache, items, names, i + 1, now)
  {
    Cut(names, i);
  }

  /** The run replaces what was stored under its name, and nothing is evicted. */
  predicate StoredPlainly(cache: Cache, run: Run, now: Instant, after: Cache) {
    after == Others(cache, run.name)[IdOf(run) := Cached(run, now)]
  }

  lemma {:induction false} ServeLive(
    loaded: Cache, cache: Cache, items: seq<Run>, names: seq<string>, i: nat, now: Instant, run: Run, after: Cache)
    requires i < |names| && Distinct(names) && Progress(loaded, cache, items, names, i, now)
    requires run.name == names[i] && (forall id | id in loaded :: id.name != names[i]) && StoredPlainly(cache, run, now, after)
    ensures Progress(loaded, after, items + [run], names, i + 1, now)
  {
    StoredSimply(cache, run, now, after);
    Cut(names, i);
    forall r | r in items + [run] ensures r.name in names[..i + 1] && Recent(after, now, r) {
      if r in items { assert Recent(cache, now, r) && r.name != run.name; }
    }
    forall id | id in after ensures after[id].run in items + [run] || id.name in names[i + 1..] {
      if id.name != run.name { assert id in cache && after[id] == cache[id]; }
    }
  }

  lemma StoredSimply(cache: Cache, run: Run, now: Instant, after: Cache)
    requires StoredPlainly(cache, run, now, after)
    ensures forall id :: id in after <==> id == IdOf(run) || (id in cache && id.name != run.name)
    ensures forall id | id in after && id.name != run.name :: after[id] == cache[id]
    ensures after[IdOf(run)] == Cached(run, now)
    ensures forall id | id in after && id.name == run.name :: id == IdOf(run)
  {
  }

  lemma {:induction false} RoomForOne(cache: Cache, names: seq<string>, i: nat)
    requires i < |names| <= MAX_READS && OnePerName(cache) && forall id | id in cache :: id.name in names
    ensures |Others(cache, names[i])| < MAX_READS
  {
    var all := set n | n in names;
    NameCount(names);
    AtMostOneEach(Others(cache, names[i]).Keys, all - {names[i]});
  }

  lemma ItemsStep(scope: Scope, uids: References, loaded: Cache, live: string -> Answer, names: seq<string>, i: nat, items: seq<Run>)
    requires i < |names| && Items(scope, uids, loaded, live, names[..i]) == Some(items)
    ensures Items(scope, uids, loaded, live, names[..i + 1]) ==
      match Pick(scope, uids, loaded, live, names[i])
      case Absent => Some(items)
      case Broken => None
      case Got(run) => Some(items + [run])
  {
    assert names[..i + 1][..i] == names[..i];
  }

  lemma LogGrows(scope: Scope, log: Log, longer: Log, cache: Cache)
    requires ValidCache(scope, log, cache) && log <= longer
    ensures ValidCache(scope, longer, cache)
  {
  }

  lemma NotProjected(cached: map<string, Run>, loaded: Cache, name: string)
    requires Projects(cached, loaded) && name !in cached
    ensures RunNamed(loaded, name).None? && forall id | id in loaded :: id.name != name
  {
  }

  /** Every run returned is of a referenced UID. */
  lemma {:induction false} ItemsReferenced(
    scope: Scope, uids: References, cache: Cache, now: Instant, live: string -> Answer, names: seq<string>)
    requires forall id | id in cache :: IdOf(cache[id].run) == id
    requires Items(scope, uids, Loaded(cache, uids, now), live, names).Some?
    ensures forall run | run in Items(scope, uids, Loaded(cache, uids, now), live, names).value ::
      run.name in uids && run.uid in uids[run.name]
  {
    if names != [] { ItemsReferenced(scope, uids, cache, now, live, names[..|names| - 1]); }
  }

  /** A name under which several UIDs are referenced is never served from the cache. */
  lemma ContestedReadLive(uids: References, cache: Cache, now: Instant, name: string)
    requires name in uids && |uids[name]| != 1
    ensures RunNamed(Loaded(cache, uids, now), name).None?
  {
  }

  /** Where an answer comes from: a run validated less than thirty seconds ago that is the only one referenced
      under its name is served without a read; anything else is what the live read says, if it is ours. */
  lemma {:induction false} PickExactly(scope: Scope, uids: References, cache: Cache, now: Instant, live: string -> Answer, name: string)
    requires OnePerName(cache) && name in uids
    ensures (exists uid :: Id(name, uid) in cache && uids[name] == {uid} && now - cache[Id(name, uid)].validatedAt < 30_000_000_000) ==>
      forall id | id in cache && id.name == name :: Pick(scope, uids, Loaded(cache, uids, now), live, name) == Got(cache[id].run)
    ensures !(exists uid :: Id(name, uid) in cache && uids[name] == {uid} && now - cache[Id(name, uid)].validatedAt < 30_000_000_000) ==>
      Pick(scope, uids, Loaded(cache, uids, now), live, name) ==
        match live(name)
        case NotFound => Absent
        case Unreadable => Broken
        case Found(run) =>
          if run.namespace == scope.namespace && run.instance == scope.instance && run.uid != ""
             && run.name == name && run.uid in uids[name]
          then Got(run) else Absent
  {
    var loaded := Loaded(cache, uids, now);
    if uid :| Id(name, uid) in cache && uids[name] == {uid} && now - cache[Id(name, uid)].validatedAt < 30_000_000_000 {
      RunNamedUnique(loaded, Id(name, uid));
    } else {
      forall id | id in loaded ensures id.name != name {
        Singleton(uids[id.name], id.uid);
        assert id == Id(id.name, id.uid);
      }
    }
  }

  lemma Singleton<T>(s: set<T>, x: T)
    requires |s| == 1 && x in s
    ensures s == {x}
  {
    assert |s - {x}| == 0;
  }

  lemma {:induction false} KeptNames(owners: seq<Id>)
    ensures Distinct(Kept(Names(owners))) && |Kept(Names(owners))| <= MAX_READS
    ensures forall n, u | n in Referenced(owners) && u in Referenced(owners)[n] :: Id(n, u) in owners
  {
    NamesDistinct(owners);
  }

  /** A live read of this very run is less than thirty seconds old. */
  ghost predicate Witnessed(log: Log, now: int, run: Run) {
    exists t :: (run, t) in log && now < t + VALIDATION_TTL
  }

  lemma {:induction false} AllWitnessed(
    scope: Scope, log: Log, loaded: Cache, cache: Cache, items: seq<Run>, names: seq<string>, now: int)
    requires ValidCache(scope, log, cache) && Progress(loaded, cache, items, names, |names|, now)
    ensures forall run | run in items :: Witnessed(log, now, run)
    ensures cache.Keys == set run | run in items :: IdOf(run)
  {
    forall run | run in items ensures Witnessed(log, now, run) {
      assert Recent(cache, now, run) && Sound(scope, log, IdOf(run), cache[IdOf(run)]);
      assert (run, cache[IdOf(run)].validatedAt) in log;
    }
    forall id | id in cache ensures exists run | run in items :: IdOf(run) == id {
      assert Sound(scope, log, id, cache[id]) && cache[id].run in items;
    }
  }

  /** Each way of resolving a name moves the loop on. */
  lemma {:induction false} Served(
    scope: Scope, uids: References, loaded: Cache, cached: map<string, Run>, live: string -> Answer, before: Cache, items: seq<Run>,
    names: seq<string>, i: nat, now: Instant, picked: Picked, after: Cache)
    requires i < |names| && Distinct(names) && Progress(loaded, before, items, names, i, now)
    requires OnePerName(loaded) && OnePerName(before) && Projects(cached, loaded)
    requires forall id | id in loaded :: IdOf(loaded[id].run) == id && now < loaded[id].validatedAt + VALIDATION_TTL
    requires picked == Pick(scope, uids, loaded, live, names[i]) && !picked.Broken?
    requires if picked.Got? && names[i] !in cached then picked.run.name == names[i] && StoredPlainly(before, picked.run, now, after)
             else after == before
    ensures Progress(loaded, after, if picked.Got? then items + [picked.run] else items, names, i + 1, now)
  {
    if names[i] in cached {
      var id :| id in loaded && id.name == names[i];
      RunNamedUnique(loaded, id);
      ServeCached(loaded, before, items, names, i, now, id);
    } else {
      NotProjected(cached, loaded, names[i]);
      if picked.Absent? {
        ServeNothing(loaded, before, items, names, i, now);
      } else {
        ServeLive(loaded, before, items, names, i, now, picked.run, after);
      }
    }
  }

  class Snapshotter {
    const scope: Scope
    var cache: Cache
    ghost var log: Log

    ghost predicate Valid()
      reads this
    {
      ValidCache(scope, log, cache)
    }

    constructor (scope: Scope)
      ensures Valid() && this.scope == scope && cache == map[]
    {
      this.scope := scope;
      cache := map[];
      log := {};
    }

    method LoadCachedIngestRuns(uids: References, now: Instant) returns (result: map<string, Run>)
      requires Valid()
      modifies this`cache
      ensures Valid() && cache == Loaded(old(cache), uids, now) && Projects(result, cache)
    {
      LoadKeepsValid(scope, log, cache, uids, now);
      var loaded := SweepCache(cache, uids, now);
      result := ProjectRuns(loaded);
      cache := loaded;
    }

    method StoreCachedIngestRun(run: Run, now: Instant)
      requires Valid() && InScope(scope, run) && (run, now) in log
      modifies this`cache
      ensures Valid() && Stores(old(cache), run, now, cache)
    {
      var after := StoreInto(cache, run, now);
      StoreKeepsValid(scope, log, cache, run, now, after);
      cache := after;
    }

    /** One name: its cached run, or a live read that is checked and stored. */
    method ReadName(
      uids: References, ghost loaded: Cache, cached: map<string, Run>, live: string -> Answer, name: string, now: Instant)
      returns (picked: Picked)
      requires Valid() && OnePerName(loaded) && Projects(cached, loaded)
      modifies this
      ensures Valid() && old(log) <= log && picked == Pick(scope, uids, loaded, live, name)
      ensures if picked.Got? && name !in cached then Stores(old(cache), picked.run, now, cache) else cache == old(cache)
      ensures picked.Got? && name !in cached ==> picked.run.name == name
    {
      if name in cached {
        ghost var id :| id in loaded && id.name == name;
        RunNamedUnique(loaded, id);
        return Got(cached[name]);
      }
      NotProjected(cached, loaded, name);
      var answer := live(name);
      if answer.Unreadable? { return Broken; }
      if answer.NotFound? || !Accepts(scope, uids, name, answer.run) { return Absent; }
      LogGrows(scope, log, log + {(answer.run, now)}, cache);
      log := log + {(answer.run, now)};
      StoreCachedIngestRun(answer.run, now);
      return Got(answer.run);
    }

    method ReadNames(uids: References, cached: map<string, Run>, live: string -> Answer, names: seq<string>, now: Instant)
      returns (items: seq<Run>, ok: bool)
      requires Valid() && Projects(cached, cache) && Distinct(names) && |names| <= MAX_READS
      requires forall id | id in cache :: id.name in names && now < cache[id].validatedAt + VALIDATION_TTL
      modifies this
      ensures Valid() && old(log) <= log
      ensures Items(scope, uids, old(cache), live, names) == if ok then Some(items) else None
      ensures ok ==> Progress(old(cache), cache, items, names, |names|, now)
    {
      ghost var loaded := cache;
      items, ok := [], true;
      assert names[0..] == names && names[..0] == [];
      for i := 0 to |names|
        invariant Valid() && old(log) <= log
        invariant Items(scope, uids, loaded, live, names[..i]) == Some(items)
        invariant Progress(loaded, cache, items, names, i, now)
      {
        ghost var before := cache;
        ItemsStep(scope, uids, loaded, live, names, i, items);
        RoomForOne(before, names, i);
        var picked := ReadName(uids, loaded, cached, live, names[i], now);
        if picked.Broken? {
          BrokenPrefix(scope, uids, loaded, live, names, i + 1);
          return items, false;
        }
        Served(scope, uids, loaded, cached, live, before, items, names, i, now, picked, cache);
        if picked.Got? { items := items + [picked.run]; }
      }
      assert names[..|names|] == names;
    }

    /** The runs the given Jobs refer to, best-ranked names first. Nothing fresh is evicted:
        afterwards the cache holds exactly the runs returned. */
    method ResolveReferencedIngestRuns(jobs: seq<Job>, live: string -> Answer, now: Instant)
      returns (items: seq<Run>, truncated: bool, ok: bool)
      requires Valid()
      modifies this
      ensures Valid() && old(log) <= log
      ensures truncated <==> |Names(Owners(Ranked(scope, jobs)))| > MAX_READS
      ensures var owners := Owners(Ranked(scope, jobs));
        var uids := Referenced(owners);
        Items(scope, uids, Loaded(old(cache), uids, now), live, Kept(Names(owners))) == if ok then Some(items) else None
      ensures ok ==> cache.Keys == set run | run in items :: IdOf(run)
      ensures ok ==> forall run | run in items :: Witnessed(log, now, run) && IdOf(run) in Owners(Ranked(scope, jobs))
    {
      var names, uids;
      ghost var owners := Owners(Ranked(scope, jobs));
      names, uids, truncated := SelectReferences(scope, jobs);
      assert uids == Referenced(owners);
      KeptNames(owners);
      ghost var before := cache;
      var cached := LoadCachedIngestRuns(uids, now);
      ghost var loaded := cache;
      items, ok := ReadNames(uids, cached, live, names, now);
      if ok {
        AllWitnessed(scope, log, loaded, cache, items, names, now);
        ItemsReferenced(scope, uids, before, now, live, names);
      }
    }
  }
}
