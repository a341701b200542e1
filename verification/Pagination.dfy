/** Listing ingest runs: a page filtered out of a paged backend, and the cursor chain. */
module Pagination {
  import opened Base
  import Cursor

  const DEFAULT_LIMIT := 25
  const MAX_LIMIT := 100

  datatype Run = Run(namespace: string, instance: string, name: string, phase: string)

  datatype Query = Query(limit: int, phase: string, cursor: string)

  datatype Store = Store(namespace: string, instance: string, maxBackendPages: nat)

  /** One page of the backend's list, with the token of the next page or none. */
  datatype Reply = Unavailable | Reply(runs: seq<Run>, next: string)

  /** Answers to a list request with a limit and a token, over one fixed snapshot. */
  type Backend = (int, string) -> Reply

  datatype Error = BadQuery | BadCursor | ReadFailed | NotAdvancing

  datatype Listing = Failed(error: Error) | Listed(items: seq<Run>, token: string, used: nat)

  datatype Page = Page(items: seq<Run>, nextCursor: string)

  datatype Result = Refused(error: Error) | Answered(page: Page)

  // ----- The filter

  function EffectivePhase(run: Run): string {
    if run.phase == "" then "Pending" else run.phase
  }

  predicate ValidPhase(phase: string) {
    phase in {"", "Pending", "Queued", "Running", "Succeeded", "PartiallySucceeded", "Failed", "Cancelled"}
  }

  predicate Wanted(store: Store, phase: string, run: Run) {
    run.namespace == store.namespace && run.instance == store.instance && (phase == "" || EffectivePhase(run) == phase)
  }

  function Filter(store: Store, phase: string, runs: seq<Run>): seq<Run> {
    if runs == [] then []
    else if Wanted(store, phase, runs[0]) then [runs[0]] + Filter(store, phase, runs[1..])
    else Filter(store, phase, runs[1..])
  }

  lemma {:induction false} FilterSplit(store: Store, phase: string, a: seq<Run>, b: seq<Run>)
    ensures Filter(store, phase, a + b) == Filter(store, phase, a) + Filter(store, phase, b)
    ensures |Filter(store, phase, a)| <= |a|
  {
    if a == [] {
      assert a + b == b;
    } else {
      assert (a + b)[0] == a[0] && (a + b)[1..] == a[1..] + b;
      FilterSplit(store, phase, a[1..], b);
    }
  }

  /** The runs listed are those of the instance in the phase asked for; a run without a phase counts as Pending. */
  lemma {:induction false} FilterExactly(store: Store, phase: string, runs: seq<Run>, run: Run)
    ensures multiset(Filter(store, phase, runs))[run] ==
      if run.namespace == store.namespace && run.instance == store.instance &&
         (phase == "" || run.phase == phase || (run.phase == "" && phase == "Pending"))
      then multiset(runs)[run] else 0
  {
    if runs != [] {
      FilterExactly(store, phase, runs[1..], run);
      assert runs == [runs[0]] + runs[1..];
    }
  }

  method FilterRuns(store: Store, phase: string, runs: seq<Run>, sofar: seq<Run>) returns (items: seq<Run>)
    ensures items == sofar + Filter(store, phase, runs)
  {
    items := sofar;
    assert runs[..0] == [];
    for i := 0 to |runs|
      invariant items == sofar + Filter(store, phase, runs[..i])
    {
      assert runs[..i + 1] == runs[..i] + [runs[i]];
      FilterSplit(store, phase, runs[..i], [runs[i]]);
      if Wanted(store, phase, runs[i]) { items := items + [runs[i]]; }
    }
    assert runs[..|runs|] == runs;
  }

  // ----- One page

  /** Reads on until the page is full, the list ends, or the page budget is `used` up. */
  function Gather(b: Backend, store: Store, limit: int, phase: string, token: string, items: seq<Run>, used: nat): Listing
    requires used <= store.maxBackendPages
    decreases store.maxBackendPages - used
  {
    if used == store.maxBackendPages || |items| == limit then Listed(items, token, used)
    else
      var reply := b(limit - |items|, token);
      if reply.Unavailable? then Failed(ReadFailed)
      else
        var more := items + Filter(store, phase, reply.runs);
        if reply.next == "" then Listed(more, "", used + 1)
        else if reply.next == token then Failed(NotAdvancing)
        else Gather(b, store, limit, phase, reply.next, more, used + 1)
  }

  function EffectiveLimit(query: Query): int {
    if query.limit == 0 then DEFAULT_LIMIT else query.limit
  }

  predicate ValidQuery(query: Query) {
    1 <= EffectiveLimit(query) <= MAX_LIMIT && ValidPhase(query.phase)
  }

  function QueryHash(lib: Cursor.Library, store: Store, query: Query): string
    requires ValidQuery(query)
  {
    lib.digest(Cursor.QueryText(store.namespace, store.instance, EffectiveLimit(query), query.phase))
  }

  function StartToken(lib: Cursor.Library, store: Store, query: Query): Option<string>
    requires ValidQuery(query)
  {
    if query.cursor == "" then Some("") else Cursor.Decode(lib, query.cursor, QueryHash(lib, store, query))
  }

  function Seal(lib: Cursor.Library, store: Store, query: Query, nonce: Cursor.Bytes, listing: Listing): Result
    requires ValidQuery(query)
  {
    match listing
    case Failed(error) => Refused(error)
    case Listed(items, token, _) =>
      if token == "" then Answered(Page(items, ""))
      else
        var cursor := Cursor.Encode(lib, nonce, token, QueryHash(lib, store, query));
        if cursor.None? then Refused(ReadFailed) else Answered(Page(items, cursor.value))
  }

  function List(lib: Cursor.Library, b: Backend, store: Store, query: Query, nonce: Cursor.Bytes): Result {
    if !ValidQuery(query) then Refused(BadQuery)
    else
      var token := StartToken(lib, store, query);
      if token.None? then Refused(BadCursor)
      else Seal(lib, store, query, nonce, Gather(b, store, EffectiveLimit(query), query.phase, token.value, [], 0))
  }

  /** A limit out of range or an unknown phase is refused before anything is read, and no limit means twenty-five. */
  lemma QueryChecked(lib: Cursor.Library, b: Backend, store: Store, query: Query, nonce: Cursor.Bytes)
    ensures query.limit < 0 || query.limit > 100 ==> List(lib, b, store, query, nonce) == Refused(BadQuery)
    ensures query.limit == 0 ==> List(lib, b, store, query, nonce) == List(lib, b, store, query.(limit := 25), nonce)
    ensures query.phase !in {"", "Pending", "Queued", "Running", "Succeeded", "PartiallySucceeded", "Failed", "Cancelled"} ==>
      List(lib, b, store, query, nonce) == Refused(BadQuery)
  {
  }

  method ListRuns(lib: Cursor.Library, b: Backend, store: Store, query: Query, nonce: Cursor.Bytes)
    returns (result: Result)
    ensures result == List(lib, b, store, query, nonce)
  {
    if !ValidQuery(query) { return Refused(BadQuery); }
    var limit := EffectiveLimit(query);
    var token := "";
    if query.cursor != "" {
      var decoded := Cursor.Decode(lib, query.cursor, QueryHash(lib, store, query));
      if decoded.None? { return Refused(BadCursor); }
      token := decoded.value;
    }
    var items, used: nat := [], 0;
    ghost var whole := Gather(b, store, limit, query.phase, token, [], 0);
    while used < store.maxBackendPages && |items| != limit
      invariant used <= store.maxBackendPages
      invariant Gather(b, store, limit, query.phase, token, items, used) == whole
    {
      var reply := b(limit - |items|, token);
      if reply.Unavailable? { return Refused(ReadFailed); }
      items := FilterRuns(store, query.phase, reply.runs, items);
      used := used + 1;
      if reply.next == "" {
        return Answered(Page(items, ""));
      }
      if reply.next == token { return Refused(NotAdvancing); }
      token := reply.next;
    }
    return Seal(lib, store, query, nonce, Listed(items, token, used));
  }

  // ----- What a page holds, over a fixed list

  /** The backend serves `all` in order: each token stands for a position, a page starts
      there, is no longer than asked, and its next token stands for where it ended. */
  ghost predicate Serves(b: Backend, all: seq<Run>, position: string -> Option<nat>) {
    && position("") == Some(0)
    && (forall limit, token | limit > 0 && position(token).Some? :: ServesPage(b(limit, token), limit, all, position(token).value, position))
  }

  ghost predicate ServesPage(reply: Reply, limit: int, all: seq<Run>, start: nat, position: string -> Option<nat>) {
    reply.Reply? ==>
      && |reply.runs| <= limit
      && start + |reply.runs| <= |all|
      && reply.runs == all[start..start + |reply.runs|]
      && (if reply.next == "" then start + |reply.runs| == |all| else position(reply.next) == Some(start + |reply.runs|))
  }

  /** Where a listing stopped. */
  function End(token: string, all: seq<Run>, position: string -> Option<nat>): Option<nat> {
    if token == "" then Some(|all|) else position(token)
  }

  /** The items are exactly the wanted ones between two positions, no more than asked for, within the page budget. */
  ghost predicate Exact(listing: Listing, store: Store, limit: int, phase: string, all: seq<Run>, start: nat, position: string -> Option<nat>) {
    listing.Listed? ==>
      && |listing.items| <= limit && listing.used <= store.maxBackendPages
      && var end := End(listing.token, all, position);
         end.Some? && start <= end.value <= |all| && listing.items == Filter(store, phase, all[start..end.value])
  }

  lemma {:induction false} GatherExact(
    b: Backend, store: Store, limit: int, phase: string, all: seq<Run>, position: string -> Option<nat>,
    start: nat, token: string, items: seq<Run>, used: nat)
    requires Serves(b, all, position) && used <= store.maxBackendPages && |items| <= limit
    requires position(token).Some? && start <= position(token).value <= |all| && (token == "" ==> items == [] && used == 0)
    requires items == Filter(store, phase, all[start..position(token).value])
    requires store.maxBackendPages > 0 && limit > 0
    ensures Exact(Gather(b, store, limit, phase, token, items, used), store, limit, phase, all, start, position)
    decreases store.maxBackendPages - used
  {
    if used < store.maxBackendPages && |items| < limit {
      var at := position(token).value;
      var reply := b(limit - |items|, token);
      assert ServesPage(reply, limit - |items|, all, at, position);
      if reply.Reply? {
        var end := at + |reply.runs|;
        FilterSplit(store, phase, all[start..at], reply.runs);
        FilterSplit(store, phase, reply.runs, []);
        assert all[start..at] + reply.runs == all[start..end];
        if reply.next != "" && reply.next != token {
          GatherExact(b, store, limit, phase, all, position, start, reply.next,
                      items + Filter(store, phase, reply.runs), used + 1);
        }
      }
    }
  }

  /** Every reply that announces a next page holds at least one run. */
  ghost predicate Progresses(b: Backend) {
    forall limit, token | limit > 0 :: MakesProgress(b(limit, token))
  }

  predicate MakesProgress(reply: Reply) {
    reply.Reply? && reply.next != "" ==> reply.runs != []
  }

  ghost predicate Available(b: Backend) {
    forall limit, token :: b(limit, token).Reply?
  }

  /** A page that ends with a token ends further on, and an available backend always yields a page. */
  lemma {:induction false} GatherAdvances(
    b: Backend, store: Store, limit: int, phase: string, all: seq<Run>, position: string -> Option<nat>,
    token: string, items: seq<Run>, used: nat)
    requires Serves(b, all, position) && Progresses(b) && used <= store.maxBackendPages && |items| <= limit
    requires position(token).Some?
    ensures var g := Gather(b, store, limit, phase, token, items, used);
      && (g.Listed? && g.token != "" ==>
            position(g.token).Some? && position(token).value + g.used - used <= position(g.token).value)
      && (Available(b) ==> g.Listed?)
      && (g.Listed? && used < store.maxBackendPages && |items| < limit ==> g.used > used)
    decreases store.maxBackendPages - used
  {
    if used < store.maxBackendPages && |items| < limit {
      var reply := b(limit - |items|, token);
      assert ServesPage(reply, limit - |items|, all, position(token).value, position) && MakesProgress(reply);
      if reply.Reply? && reply.next != "" {
        FilterSplit(store, phase, reply.runs, []);
        GatherAdvances(b, store, limit, phase, all, position, reply.next,
                       items + Filter(store, phase, reply.runs), used + 1);
      }
    }
  }

  // ----- Following the cursors

  function Concat(pages: seq<Page>): seq<Run> {
    if pages == [] then [] else pages[0].items + Concat(pages[1..])
  }

  /** Each page was answered to the cursor of the page before; the last may have one too. */
  predicate IsChain(
    lib: Cursor.Library, b: Backend, store: Store, query: Query, nonces: seq<Cursor.Bytes>, pages: seq<Page>)
    decreases |pages|
  {
    && |pages| > 0 && |nonces| == |pages| && |nonces[0]| == Cursor.NONCE_SIZE
    && Answers(lib, b, store, query, nonces[0], pages[0])
    && (|pages| > 1 ==>
          pages[0].nextCursor != "" && IsChain(lib, b, store, query.(cursor := pages[0].nextCursor), nonces[1..], pages[1..]))
  }

  /** A chain of pages that has come to its end. */
  predicate IsCrawl(
    lib: Cursor.Library, b: Backend, store: Store, query: Query, nonces: seq<Cursor.Bytes>, pages: seq<Page>)
  {
    IsChain(lib, b, store, query, nonces, pages) && pages[|pages| - 1].nextCursor == ""
  }

  predicate Answers(lib: Cursor.Library, b: Backend, store: Store, query: Query, nonce: Cursor.Bytes, page: Page) {
    List(lib, b, store, query, nonce) == Answered(page)
  }

  /** The query is valid and its cursor stands for this position. */
  predicate StartsAt(lib: Cursor.Library, store: Store, query: Query, position: string -> Option<nat>, at: nat) {
    ValidQuery(query) && StartToken(lib, store, query).Some? && position(StartToken(lib, store, query).value) == Some(at)
  }

  lemma AnsweredOnlyIfRead(lib: Cursor.Library, b: Backend, store: Store, query: Query, nonce: Cursor.Bytes, page: Page)
    requires Answers(lib, b, store, query, nonce, page)
    ensures ValidQuery(query) && StartToken(lib, store, query).Some?
  {
  }

  /** The next page starts where this one ended. */
  lemma {:induction false} NextStart(lib: Cursor.Library, store: Store, query: Query, nonce: Cursor.Bytes, listing: Listing)
    requires Cursor.Ideal(lib) && |nonce| == Cursor.NONCE_SIZE && ValidQuery(query) && listing.Listed?
    ensures var r := Seal(lib, store, query, nonce, listing);
      && r.Answered? && r.page.items == listing.items && (r.page.nextCursor == "" <==> listing.token == "")
      && var start := StartToken(lib, store, query.(cursor := r.page.nextCursor));
         start.Some? ==> start.value == listing.token
  {
    if listing.token != "" {
      var hash := QueryHash(lib, store, query);
      Cursor.RoundTrip(lib, nonce, listing.token, hash, hash);
    }
  }

  lemma {:induction false} OnePage(
    lib: Cursor.Library, b: Backend, store: Store, query: Query, nonce: Cursor.Bytes, page: Page,
    all: seq<Run>, position: string -> Option<nat>, start: nat) returns (end: nat)
    requires Cursor.Ideal(lib) && Serves(b, all, position) && store.maxBackendPages > 0 && |nonce| == Cursor.NONCE_SIZE
    requires Answers(lib, b, store, query, nonce, page) && start <= |all| && StartsAt(lib, store, query, position, start)
    ensures start <= end <= |all| && page.items == Filter(store, query.phase, all[start..end])
    ensures |page.items| <= EffectiveLimit(query)
    ensures page.nextCursor == "" ==> end == |all|
    ensures page.nextCursor != "" && Progresses(b) ==> start < end
    ensures page.nextCursor != "" ==>
      var next := StartToken(lib, store, query.(cursor := page.nextCursor));
      next.Some? ==> position(next.value) == Some(end)
  {
    var limit, token := EffectiveLimit(query), StartToken(lib, store, query).value;
    var listing := Gather(b, store, limit, query.phase, token, [], 0);
    assert all[start..start] == [];
    GatherExact(b, store, limit, query.phase, all, position, start, token, [], 0);
    if Progresses(b) { GatherAdvances(b, store, limit, query.phase, all, position, token, [], 0); }
    NextStart(lib, store, query, nonce, listing);
    end := End(listing.token, all, position).value;
  }

  lemma Joined(store: Store, phase: string, all: seq<Run>, start: nat, end: nat)
    requires start <= end <= |all|
    ensures Filter(store, phase, all[start..]) == Filter(store, phase, all[start..end]) + Filter(store, phase, all[end..])
  {
    FilterSplit(store, phase, all[start..end], all[end..]);
    assert all[start..end] + all[end..] == all[start..];
  }

  lemma {:induction false} CrawlRest(
    lib: Cursor.Library, b: Backend, store: Store, query: Query, all: seq<Run>, position: string -> Option<nat>,
    nonces: seq<Cursor.Bytes>, pages: seq<Page>, start: nat)
    requires Cursor.Ideal(lib) && Serves(b, all, position) && store.maxBackendPages > 0
    requires IsChain(lib, b, store, query, nonces, pages)
    requires start <= |all| && StartsAt(lib, store, query, position, start)
    ensures pages[|pages| - 1].nextCursor == "" ==> Concat(pages) == Filter(store, query.phase, all[start..])
    ensures Progresses(b) ==> |pages| <= |all| - start + 1
    decreases |pages|
  {
    var end := OnePage(lib, b, store, query, nonces[0], pages[0], all, position, start);
    Joined(store, query.phase, all, start, end);
    if |pages| > 1 {
      var next := query.(cursor := pages[0].nextCursor);
      AnsweredOnlyIfRead(lib, b, store, next, nonces[1], pages[1]);
      CrawlRest(lib, b, store, next, all, position, nonces[1..], pages[1..], end);
    } else {
      assert pages[1..] == [] && all[|all|..] == [];
    }
  }

  /** Following the cursors from the first page to the last yields exactly the wanted runs, in
      order, none lost and none twice. It cannot go on for ever: if every reply makes progress,
      no chain of pages, finished or not, has more pages than the list has runs and one. */
  lemma {:induction false} CrawlIsFilter(
    lib: Cursor.Library, b: Backend, store: Store, limit: int, phase: string, all: seq<Run>, position: string -> Option<nat>,
    nonces: seq<Cursor.Bytes>, pages: seq<Page>)
    requires Cursor.Ideal(lib) && Serves(b, all, position) && store.maxBackendPages > 0
    requires IsChain(lib, b, store, Query(limit, phase, ""), nonces, pages)
    ensures IsCrawl(lib, b, store, Query(limit, phase, ""), nonces, pages) ==> Concat(pages) == Filter(store, phase, all)
    ensures Progresses(b) ==> |pages| <= |all| + 1
  {
    AnsweredOnlyIfRead(lib, b, store, Query(limit, phase, ""), nonces[0], pages[0]);
    CrawlRest(lib, b, store, Query(limit, phase, ""), all, position, nonces, pages, 0);
    assert all[0..] == all;
  }

  /** The cursors for every token the backend hands out are accepted back. */
  ghost predicate CursorsFit(lib: Cursor.Library, store: Store, query: Query, position: string -> Option<nat>)
    requires ValidQuery(query)
  {
    forall token | position(token).Some? ::
      |lib.marshal(Cursor.Payload(token, QueryHash(lib, store, query)))| <= Cursor.MAX_PAYLOAD
  }

  /** An available backend that makes progress answers a page, and its cursor can be followed. */
  lemma {:induction false} PageAnswered(
    lib: Cursor.Library, b: Backend, store: Store, query: Query, nonce: Cursor.Bytes,
    all: seq<Run>, position: string -> Option<nat>, start: nat) returns (page: Page, end: nat)
    requires Cursor.Ideal(lib) && Serves(b, all, position) && Progresses(b) && Available(b) && store.maxBackendPages > 0
    requires |nonce| == Cursor.NONCE_SIZE && start <= |all| && StartsAt(lib, store, query, position, start)
    requires CursorsFit(lib, store, query, position)
    ensures Answers(lib, b, store, query, nonce, page)
    ensures page.nextCursor != "" ==>
      start < end <= |all| && StartsAt(lib, store, query.(cursor := page.nextCursor), position, end)
  {
    var limit, token := EffectiveLimit(query), StartToken(lib, store, query).value;
    var listing := Gather(b, store, limit, query.phase, token, [], 0);
    assert all[start..start] == [];
    GatherAdvances(b, store, limit, query.phase, all, position, token, [], 0);
    GatherExact(b, store, limit, query.phase, all, position, start, token, [], 0);
    NextStart(lib, store, query, nonce, listing);
    page := Seal(lib, store, query, nonce, listing).page;
    end := End(listing.token, all, position).value;
    if listing.token != "" {
      var hash := QueryHash(lib, store, query);
      Cursor.RoundTrip(lib, nonce, listing.token, hash, hash);
    }
  }

  lemma {:induction false} CrawlFrom(
    lib: Cursor.Library, b: Backend, store: Store, query: Query, nonce: nat -> Cursor.Bytes, k: nat,
    all: seq<Run>, position: string -> Option<nat>, start: nat) returns (nonces: seq<Cursor.Bytes>, pages: seq<Page>)
    requires Cursor.Ideal(lib) && Serves(b, all, position) && Progresses(b) && Available(b) && store.maxBackendPages > 0
    requires (forall n :: |nonce(n)| == Cursor.NONCE_SIZE) && start <= |all| && StartsAt(lib, store, query, position, start)
    requires CursorsFit(lib, store, query, position)
    ensures IsCrawl(lib, b, store, query, nonces, pages)
    decreases |all| - start
  {
    var page, end := PageAnswered(lib, b, store, query, nonce(k), all, position, start);
    if page.nextCursor == "" {
      nonces, pages := [nonce(k)], [page];
    } else {
      var next := query.(cursor := page.nextCursor);
      assert QueryHash(lib, store, next) == QueryHash(lib, store, query);
      var moreNonces, morePages := CrawlFrom(lib, b, store, next, nonce, k + 1, all, position, end);
      nonces, pages := [nonce(k)] + moreNonces, [page] + morePages;
      assert nonces[1..] == moreNonces && pages[1..] == morePages;
    }
  }

  /** Over an available backend that makes progress, and with cursors within the bound, the
      crawl comes to its end, whatever nonces are drawn. */
  lemma {:induction false} CrawlEnds(
    lib: Cursor.Library, b: Backend, store: Store, query: Query, nonce: nat -> Cursor.Bytes,
    all: seq<Run>, position: string -> Option<nat>) returns (nonces: seq<Cursor.Bytes>, pages: seq<Page>)
    requires Cursor.Ideal(lib) && Serves(b, all, position) && Progresses(b) && Available(b) && store.maxBackendPages > 0
    requires (forall n :: |nonce(n)| == Cursor.NONCE_SIZE) && ValidQuery(query) && query.cursor == ""
    requires CursorsFit(lib, store, query, position)
    ensures IsCrawl(lib, b, store, query, nonces, pages) && |pages| <= |all| + 1
  {
    nonces, pages := CrawlFrom(lib, b, store, query, nonce, 0, all, position, 0);
    CrawlRest(lib, b, store, query, all, position, nonces, pages, 0);
  }

  /** No page exceeds its limit or its budget of backend reads. */
  lemma {:induction false} PageBounded(
    lib: Cursor.Library, b: Backend, store: Store, query: Query, all: seq<Run>, position: string -> Option<nat>, start: nat)
    requires Serves(b, all, position) && store.maxBackendPages > 0
    requires start <= |all| && StartsAt(lib, store, query, position, start)
    ensures var listing := Gather(b, store, EffectiveLimit(query), query.phase, StartToken(lib, store, query).value, [], 0);
      listing.Listed? ==> |listing.items| <= EffectiveLimit(query) && listing.used <= store.maxBackendPages
  {
    var token := StartToken(lib, store, query).value;
    assert all[start..start] == [];
    GatherExact(b, store, EffectiveLimit(query), query.phase, all, position, start, token, [], 0);
  }

  /** A cursor leads to its token exactly under the same namespace, instance, limit and
      phase, whenever its payload is within the bound. */
  lemma {:induction false} CursorBoundToQuery(
    lib: Cursor.Library, made: Store, query: Query, asked: Store, other: Query, nonce: Cursor.Bytes, token: string)
    requires Cursor.Ideal(lib) && |nonce| == Cursor.NONCE_SIZE && token != "" && ValidQuery(query) && ValidQuery(other)
    requires Cursor.Plain(made.namespace) && Cursor.Plain(made.instance)
    requires Cursor.Plain(asked.namespace) && Cursor.Plain(asked.instance)
    requires Cursor.Encode(lib, nonce, token, QueryHash(lib, made, query)) == Some(other.cursor)
    ensures StartToken(lib, asked, other) ==
      if && made.namespace == asked.namespace && made.instance == asked.instance
         && EffectiveLimit(query) == EffectiveLimit(other) && query.phase == other.phase
         && |lib.marshal(Cursor.Payload(token, QueryHash(lib, made, query)))| <= Cursor.MAX_PAYLOAD
      then Some(token) else None
  {
    Cursor.RoundTrip(lib, nonce, token, QueryHash(lib, made, query), QueryHash(lib, asked, other));
    Cursor.DigestIdentifiesQuery(lib, made.namespace, made.instance, EffectiveLimit(query), query.phase,
                                 asked.namespace, asked.instance, EffectiveLimit(other), other.phase);
  }
}
