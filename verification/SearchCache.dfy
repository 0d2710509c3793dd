/** The memory routes and their Redis cache: app/routers/memories.py. */
module SearchCache {
  import opened Domain
  import opened Retrieval
  import opened Stores
  import opened GraphClient
  import opened MockBackend
  import opened CrashSafety
  import opened Conservation
  import opened Frame
  import opened Visibility
  import opened CacheKeys

  /** A cached result list and the second at which Redis drops it. */
  datatype CacheEntry = CacheEntry(items: seq<Ranked>, expires: int)

  type Cache = map<string, CacheEntry>

  const TTL := 60

  /* ---------- the three cache helpers ---------- */

  /** Redis still holds the entry. */
  predicate Live(cache: Cache, key: string, now: int) { key in cache && now < cache[key].expires }

  /** `_cache_get`: a miss when Redis is down, the key unknown or the entry expired. */
  function CacheGet(cache: Cache, key: string, now: int, up: bool): Option<seq<Ranked>> {
    if up && Live(cache, key, now) then Some(cache[key].items) else None
  }

  /** `_cache_set`: SETEX, dropped silently when Redis is down. */
  function CacheSet(cache: Cache, key: string, items: seq<Ranked>, now: int, up: bool): Cache {
    if up then cache[key := CacheEntry(items, now + TTL)] else cache
  }

  /** A stored answer is served for a minute, to requests with its key only, whatever was there before. */
  lemma EntryLivesAMinute(cache: Cache, key: string, items: seq<Ranked>, now: int, later: int, other: string)
    requires later >= now
    ensures
      var cache' := CacheSet(cache, key, items, now, true);
      && CacheGet(cache', key, later, true) == (if later < now + 60 then Some(items) else None)
      && (other != key ==> CacheGet(cache', other, later, true) == CacheGet(cache, other, later, true))
  {
  }

  /** The keys `_cache_delete_user` removes before Redis fails on it: `scan` is the order SCAN returns matches in. */
  function Evicted(scan: seq<string>, completed: nat): set<string> {
    set key | key in Take(scan, completed)
  }

  /** What a complete scan returns: matching keys only, and every matching key that is held. */
  ghost predicate FullScan(cache: Cache, user: string, scan: seq<string>, now: int)
    requires Plain(user)
  {
    && (forall key :: key in scan ==> GlobMatch(Pattern(user), key))
    && (forall key :: Live(cache, key, now) && GlobMatch(Pattern(user), key) ==> key in scan)
  }

  /* ---------- the handlers ---------- */

  datatype App = App(w: World, cache: Cache)

  datatype Request =
    | SearchRequest(user: string, topK: nat, q: string, now: int, getUp: bool, setUp: bool)
    | AddMemory(r: AddRequest, faults: Faults, scan: seq<string>, completed: nat, now: int)
    | DeleteMemory(id: Uuid, faults: Faults, scan: seq<string>, completed: nat, now: int)

  function SearchHandler(t: Text, app: App, user: string, topK: nat, q: string, now: int, getUp: bool,
                         setUp: bool): (App, seq<Ranked>, bool) {
    var key := Key(user, topK, q);
    var cached := CacheGet(app.cache, key, now, getUp);
    if cached.Some? then (app, cached.value, true)
    else
      var items := Search(t, app.w, user, q, topK);
      (app.(cache := CacheSet(app.cache, key, items, now, setUp)), items, false)
  }

  /** An exception in the backend skips the invalidation. */
  function AddHandler(t: Text, app: App, r: AddRequest, f: Faults, evicted: set<string>): (App, AddReply) {
    var (w', reply) := AddStep(t, app.w, r, f);
    (App(w', if reply.AddRaised? then app.cache else app.cache - evicted), reply)
  }

  /** A missing memory is a 404 and invalidates nothing. */
  function DeleteHandler(app: App, id: Uuid, f: Faults, evicted: set<string>): (App, DeleteReply) {
    var (w', reply) := DeleteStep(app.w, id, f);
    (App(w', if reply.DeletedRow? then app.cache - evicted else app.cache), reply)
  }

  /** An add that returns, stored or not, drops the keys its scan got through; one that raises drops nothing. */
  lemma AddInvalidates(t: Text, app: App, r: AddRequest, f: Faults, scan: seq<string>, completed: nat, key: string)
    ensures
      var (app', reply) := AddHandler(t, app, r, f, Evicted(scan, completed));
      && (key in app'.cache <==>
            key in app.cache && (reply.AddRaised? || forall p :: 0 <= p < |scan| && p < completed ==> scan[p] != key))
      && (key in app'.cache ==> app'.cache[key] == app.cache[key])
  {
    TakenKeys(scan, completed, key);
  }

  /** A delete does so only when there was a memory to delete. */
  lemma DeleteInvalidates(app: App, id: Uuid, f: Faults, scan: seq<string>, completed: nat, key: string)
    ensures
      var (app', reply) := DeleteHandler(app, id, f, Evicted(scan, completed));
      && (key in app'.cache <==>
            key in app.cache && (!reply.DeletedRow? || forall p :: 0 <= p < |scan| && p < completed ==> scan[p] != key))
      && (key in app'.cache ==> app'.cache[key] == app.cache[key])
  {
    TakenKeys(scan, completed, key);
  }

  lemma TakenKeys(scan: seq<string>, completed: nat, key: string)
    ensures key in Evicted(scan, completed) <==> exists p :: 0 <= p < |scan| && p < completed && scan[p] == key
  {
    var taken := Take(scan, completed);
    if p :| 0 <= p < |scan| && p < completed && scan[p] == key { assert taken[p] == key; }
  }

  function Handle(t: Text, app: App, req: Request): App {
    match req
    case SearchRequest(user, topK, q, now, getUp, setUp) => SearchHandler(t, app, user, topK, q, now, getUp, setUp).0
    case AddMemory(r, f, scan, completed, _) => AddHandler(t, app, r, f, Evicted(scan, completed)).0
    case DeleteMemory(id, f, scan, completed, _) => DeleteHandler(app, id, f, Evicted(scan, completed)).0
  }

  function Serve(t: Text, reqs: seq<Request>): App {
    if reqs == [] then App(Empty, map[]) else Handle(t, Serve(t, reqs[..|reqs| - 1]), reqs[|reqs| - 1])
  }

  /* ---------- coherence ---------- */

  /** User ids that can share the service: no id nests in another, and none carries an unmodelled glob character. */
  ghost predicate Separated(users: set<string>) {
    && (forall u :: u in users ==> Plain(u))
    && (forall u, v :: u in users && v in users && u != v ==> !Nested(u, v))
  }

  predicate Mutates(req: Request) { !req.SearchRequest? }

  function OpOf(req: Request): Op
    requires Mutates(req)
  {
    match req
    case AddMemory(r, f, _, _, _) => Add(r, f)
    case DeleteMemory(id, f, _, _, _) => Delete(id, f)
  }

  /** The handler raises out of the backend, before its invalidation. */
  predicate Raises(t: Text, w: World, op: Op) {
    match op
    case Add(r, f) => AddStep(t, w, r, f).1.AddRaised?
    case Delete(id, f) => DeleteStep(w, id, f).1.DeleteRaised?
  }

  /** The keys the handler of a mutation removes from the cache. */
  function Dropped(t: Text, w: World, req: Request): set<string>
    requires Mutates(req)
  {
    match req
    case AddMemory(r, f, scan, completed, _) =>
      if AddStep(t, w, r, f).1.AddRaised? then {} else Evicted(scan, completed)
    case DeleteMemory(id, f, scan, completed, _) =>
      if DeleteStep(w, id, f).1.DeletedRow? then Evicted(scan, completed) else {}
  }

  /** The mutation leaves this entry in the cache. */
  predicate Survives(t: Text, app: App, req: Request, key: string)
    requires Mutates(req)
  {
    Live(app.cache, key, req.now) && key !in Dropped(t, app.w, req)
  }

  /** Every entry of the user that the mutation leaves in the cache is for a query whose answers it leaves alone. */
  ghost predicate Covers(t: Text, app: App, req: Request, user: string)
    requires Mutates(req)
  {
    forall k: nat, q :: TopKOk(k) && Survives(t, app, req, Key(user, k, q)) ==> Unseen(t, app.w, OpOf(req), q)
  }

  predicate Known(req: Request, users: set<string>) {
    match req
    case SearchRequest(user, topK, _, _, _, _) => user in users && TopKOk(topK)
    case AddMemory(r, _, _, _, _) => r.user in users
    case DeleteMemory(_, _, _, _, _) => true
  }

  ghost predicate Healthy(t: Text, app: App, req: Request, users: set<string>) {
    && Known(req, users)
    && (Mutates(req) ==> forall u :: u in users && Touches(app.w, OpOf(req), u) ==> Covers(t, app, req, u))
  }

  ghost predicate HealthyRun(t: Text, reqs: seq<Request>, users: set<string>) {
    reqs != [] ==>
      && HealthyRun(t, reqs[..|reqs| - 1], users)
      && Healthy(t, Serve(t, reqs[..|reqs| - 1]), reqs[|reqs| - 1], users)
  }

  /** The clock does not go back from one request to the next, nor before `now`. */
  predicate Timely(reqs: seq<Request>, now: int) {
    reqs != [] ==> reqs[|reqs| - 1].now <= now && Timely(reqs[..|reqs| - 1], reqs[|reqs| - 1].now)
  }

  /** Every entry Redis holds for a known user is what the backend would answer now. */
  ghost predicate Coherent(t: Text, app: App, users: set<string>, now: int) {
    forall u, k: nat, q :: u in users && TopKOk(k) && Live(app.cache, Key(u, k, q), now) ==>
      app.cache[Key(u, k, q)].items == Search(t, app.w, u, q, k)
  }

  lemma CoherentLater(t: Text, app: App, users: set<string>, now: int, later: int)
    requires Coherent(t, app, users, now) && now <= later
    ensures Coherent(t, app, users, later)
  {
  }

  ghost predicate OwnedBy(w: World, users: set<string>) {
    forall id :: id in w.rows ==> w.rows[id].user in users
  }

  lemma KeysDiffer(users: set<string>, u: string, k: nat, q: string, v: string, k': nat, q': string)
    requires Separated(users) && u in users && v in users && TopKOk(k) && TopKOk(k')
    requires Key(u, k, q) == Key(v, k', q')
    ensures u == v && k == k' && q == q'
  {
    assert ShareKey(u, v);
    ShareKeyIffNested(u, v);
    OneUserKeysInjective(u, k, q, k', q');
  }

  lemma SearchCoherent(t: Text, app: App, users: set<string>, user: string, topK: nat, q: string, now: int,
                       getUp: bool, setUp: bool)
    requires Separated(users) && Coherent(t, app, users, now) && user in users && TopKOk(topK)
    ensures Coherent(t, SearchHandler(t, app, user, topK, q, now, getUp, setUp).0, users, now)
    ensures SearchHandler(t, app, user, topK, q, now, getUp, setUp).1 == Search(t, app.w, user, q, topK)
  {
    var app' := SearchHandler(t, app, user, topK, q, now, getUp, setUp).0;
    forall u, k: nat, q' | u in users && TopKOk(k) && Live(app'.cache, Key(u, k, q'), now)
      ensures app'.cache[Key(u, k, q')].items == Search(t, app'.w, u, q', k)
    {
      if Key(u, k, q') == Key(user, topK, q) {
        KeysDiffer(users, u, k, q', user, topK, q);
      }
    }
  }

  /** Invalidation removes every entry of its user. */
  lemma EvictionCovers(app: App, user: string, scan: seq<string>, completed: nat, now: int, k: nat, q: string)
    requires Plain(user) && FullScan(app.cache, user, scan, now) && completed >= |scan|
    ensures !Live(app.cache - Evicted(scan, completed), Key(user, k, q), now)
  {
    PatternCoversUser(user, k, q);
  }

  lemma HandleMutation(t: Text, app: App, req: Request)
    requires Mutates(req)
    ensures Handle(t, app, req).w == Step(t, app.w, OpOf(req))
    ensures Handle(t, app, req).cache == app.cache - Dropped(t, app.w, req)
  {
  }

  lemma MutationCoherent(t: Text, app: App, torn: set<Uuid>, users: set<string>, req: Request)
    requires Coherent(t, app, users, req.now) && Safe(t, app.w, torn) && Mutates(req) && Healthy(t, app, req, users)
    ensures Coherent(t, Handle(t, app, req), users, req.now)
  {
    var app', op := Handle(t, app, req), OpOf(req);
    HandleMutation(t, app, req);
    forall u, k: nat, q | u in users && TopKOk(k) && Live(app'.cache, Key(u, k, q), req.now)
      ensures app'.cache[Key(u, k, q)].items == Search(t, Step(t, app.w, op), u, q, k)
    {
      if Touches(app.w, op, u) {
        assert Covers(t, app, req, u) && Survives(t, app, req, Key(u, k, q));
        UnseenSameSearch(t, app.w, torn, op, u, q, k);
      } else {
        OtherUsersSearchUnchanged(t, app.w, torn, op, u, q, k);
      }
    }
  }

  /* ---------- what Redis being up means ---------- */

  lemma CloseChanges(edges: seq<Edge>, e: Edge, at: int)
    requires e in edges && Open(e)
    ensures CloseEdges(edges, e.memoryId, at) != edges
  {
    var i :| 0 <= i < |edges| && edges[i] == e;
    assert CloseEdges(edges, e.memoryId, at)[i] != e;
  }

  ghost predicate StoresUntouched(w: World, w': World) { w'.rows == w.rows && w'.edges == w.edges }

  /** An operation that leaves both stores untouched is unseen. */
  lemma UntouchedIsUnseen(t: Text, w: World, op: Op, q: string)
    requires StoresUntouched(w, Step(t, w, op))
    ensures Unseen(t, w, op, q)
  {
    if op.Add? && FactOf(t, op.request).Some? && op.request.id !in w.rows {
      var r, fact, f := op.request, FactOf(t, op.request).value, op.faults;
      var displaced := Displaced(w.edges, r.user, fact);
      StoreRows(t, Tick(w), r, fact, w.clock, f);
      assert !Commits(t, w, r, fact, f);
      UncommittedShape(t, Tick(w), r, fact, w.clock, f);
      if displaced.Some? && Copies(f.close) > 0 {
        CloseTimes(w.edges, displaced.value, w.clock, Copies(f.close));
        CloseChanges(w.edges, FindActive(w.edges, r.user, fact.entity, fact.relation).value, w.clock);
      }
    }
  }

  /** Redis is up for the request's invalidation, which runs to its end; a request that raises changed nothing. */
  ghost predicate RedisUp(t: Text, app: App, req: Request, users: set<string>)
    requires Separated(users) && Mutates(req)
  {
    if Raises(t, app.w, OpOf(req)) then StoresUntouched(app.w, Step(t, app.w, OpOf(req)))
    else req.completed >= |req.scan| && forall u :: u in users && Touches(app.w, OpOf(req), u) ==>
      FullScan(app.cache, u, req.scan, req.now)
  }

  lemma RedisUpIsHealthy(t: Text, app: App, req: Request, users: set<string>)
    requires Separated(users) && Mutates(req) && Known(req, users) && RedisUp(t, app, req, users)
    ensures Healthy(t, app, req, users)
  {
    forall u, k: nat, q | u in users && Touches(app.w, OpOf(req), u) && TopKOk(k) && Survives(t, app, req, Key(u, k, q))
      ensures Unseen(t, app.w, OpOf(req), q)
    {
      if Raises(t, app.w, OpOf(req)) {
        UntouchedIsUnseen(t, app.w, OpOf(req), q);
      } else {
        EvictionCovers(app, u, req.scan, req.completed, req.now, k, q);
      }
    }
  }

  ghost predicate RedisUpRun(t: Text, reqs: seq<Request>, users: set<string>)
    requires Separated(users)
  {
    reqs != [] ==>
      var app, req := Serve(t, reqs[..|reqs| - 1]), reqs[|reqs| - 1];
      RedisUpRun(t, reqs[..|reqs| - 1], users) && Known(req, users) && (Mutates(req) ==> RedisUp(t, app, req, users))
  }

  /** A run with Redis up at every mutation, and no mutation that raises halfway, is healthy throughout. */
  lemma {:induction false} RedisUpRunIsHealthy(t: Text, reqs: seq<Request>, users: set<string>)
    requires Separated(users) && RedisUpRun(t, reqs, users)
    ensures HealthyRun(t, reqs, users)
  {
    if reqs != [] {
      var app, req := Serve(t, reqs[..|reqs| - 1]), reqs[|reqs| - 1];
      RedisUpRunIsHealthy(t, reqs[..|reqs| - 1], users);
      if Mutates(req) { RedisUpIsHealthy(t, app, req, users); }
    }
  }

  /** Rows are only ever inserted for the requesting user. */
  lemma StepOwned(t: Text, w: World, op: Op, users: set<string>)
    requires OwnedBy(w, users) && (op.Add? ==> op.request.user in users)
    ensures OwnedBy(Step(t, w, op), users)
  {
  }

  lemma {:induction false} ServeInvariant(t: Text, reqs: seq<Request>, users: set<string>, now: int)
    returns (torn: set<Uuid>)
    requires Separated(users) && HealthyRun(t, reqs, users) && Timely(reqs, now)
    ensures Coherent(t, Serve(t, reqs), users, now)
    ensures Safe(t, Serve(t, reqs).w, torn) && OwnedBy(Serve(t, reqs).w, users)
  {
    if reqs == [] {
      torn := {};
    } else {
      var app, req := Serve(t, reqs[..|reqs| - 1]), reqs[|reqs| - 1];
      torn := ServeInvariant(t, reqs[..|reqs| - 1], users, req.now);
      if req.SearchRequest? {
        SearchCoherent(t, app, users, req.user, req.topK, req.q, req.now, req.getUp, req.setUp);
      } else {
        MutationCoherent(t, app, torn, users, req);
        HandleMutation(t, app, req);
        StepSafe(t, app.w, torn, OpOf(req));
        StepOwned(t, app.w, OpOf(req), users);
        torn := torn + TornBy(app.w, OpOf(req));
      }
      CoherentLater(t, Serve(t, reqs), users, req.now, now);
    }
  }

  /** Coherence: after any healthy history, a search is answered, from the cache or not, exactly as the backend would
      answer it now.  Cache reads and writes may fail at will. */
  lemma CacheIsTransparent(t: Text, reqs: seq<Request>, users: set<string>, user: string, topK: nat, q: string,
                           now: int, getUp: bool, setUp: bool)
    requires Separated(users) && HealthyRun(t, reqs, users) && Timely(reqs, now) && user in users && TopKOk(topK)
    ensures Coherent(t, Serve(t, reqs), users, now)
    ensures SearchHandler(t, Serve(t, reqs), user, topK, q, now, getUp, setUp).1
      == Search(t, Serve(t, reqs).w, user, q, topK)
  {
    var torn := ServeInvariant(t, reqs, users, now);
    SearchCoherent(t, Serve(t, reqs), users, user, topK, q, now, getUp, setUp);
  }

  /** Key-safe ids are separated, so the theorem covers them all. */
  lemma KeySafeSeparated(users: set<string>)
    requires forall u :: u in users ==> KeySafe(u)
    ensures Separated(users)
  {
    forall u, v | u in users && v in users ensures !Nested(u, v) {
      KeySafeNeverNested(u, v);
    }
  }

  /** Redis would serve this answer, and it is not the backend's. */
  predicate ServesStale(t: Text, app: App, user: string, topK: nat, q: string, now: int) {
    var cached := CacheGet(app.cache, Key(user, topK, q), now, true);
    cached.Some? && cached.value != Search(t, app.w, user, q, topK)
  }

  /** An add that reaches the rows but whose invalidation does not reach the entry leaves the old answer cached: the
      commit or the link is reported failed and the handler raises, or Redis loses the invalidation. */
  lemma MissedAddServesStale(t: Text, r: AddRequest, f: Faults, topK: nat, q: string, now: int, later: int,
                             scan: seq<string>, completed: nat)
    requires FactOf(t, r).Some? && TakesEffect(f.commit) && now <= later < now + TTL
    requires f.commit != Succeeds || !Ok(f.link) || Key(r.user, topK, q) !in Evicted(scan, completed)
    ensures ServesStale(t, Serve(t, [SearchRequest(r.user, topK, q, now, true, true),
      AddMemory(r, f, scan, completed, later)]), r.user, topK, q, later)
  {
    var first, second := SearchRequest(r.user, topK, q, now, true, true), AddMemory(r, f, scan, completed, later);
    ServeTwo(t, first, second);
    AddKeeps(t, r, f, Key(r.user, topK, q), later, scan, completed);
    AddChanges(t, r, f, topK, q);
    SurvivorIsStale(t, App(Empty, map[]), second, r.user, topK, q, now);
  }

  lemma ServePush(t: Text, reqs: seq<Request>, req: Request)
    ensures Serve(t, reqs + [req]) == Handle(t, Serve(t, reqs), req)
  {
    assert (reqs + [req])[..|reqs|] == reqs;
  }

  lemma ServeTwo(t: Text, a: Request, b: Request)
    ensures Serve(t, [a, b]) == Handle(t, Handle(t, App(Empty, map[]), a), b)
  {
    assert [] + [a] == [a] && [a] + [b] == [a, b];
    ServePush(t, [], a);
    ServePush(t, [a], b);
  }

  lemma ServeThree(t: Text, a: Request, b: Request, c: Request)
    ensures Serve(t, [a, b, c]) == Handle(t, Handle(t, Handle(t, App(Empty, map[]), a), b), c)
  {
    assert [a, b] + [c] == [a, b, c];
    ServeTwo(t, a, b);
    ServePush(t, [a, b], c);
  }

  lemma AddKeeps(t: Text, r: AddRequest, f: Faults, key: string, later: int, scan: seq<string>, completed: nat)
    requires FactOf(t, r).Some? && TakesEffect(f.commit)
    requires f.commit != Succeeds || !Ok(f.link) || key !in Evicted(scan, completed)
    ensures key !in Dropped(t, Empty, AddMemory(r, f, scan, completed, later))
  {
    AddedAlone(t, r, f);
  }

  lemma EmptyIsSafe(t: Text)
    ensures Safe(t, Empty, {}) && Safe(t, Tick(Empty), {})
  {
    TickedSafe(t, Empty, {});
  }

  /** A committed add to empty stores changes every answer of its user. */
  lemma AddChanges(t: Text, r: AddRequest, f: Faults, topK: nat, q: string)
    requires FactOf(t, r).Some? && TakesEffect(f.commit)
    ensures Search(t, Step(t, Empty, Add(r, f)), r.user, q, topK) != Search(t, Empty, r.user, q, topK)
  {
    EmptyIsSafe(t);
    CommittedAddShows(t, Tick(Empty), {}, r, FactOf(t, r).value, 0, f, q, topK);
    assert Search(t, Tick(Empty), r.user, q, topK) == Search(t, Empty, r.user, q, topK);
  }

  lemma FirstSearch(t: Text, app: App, user: string, topK: nat, q: string, now: int)
    requires app.cache == map[]
    ensures Handle(t, app, SearchRequest(user, topK, q, now, true, true))
      == App(app.w, map[Key(user, topK, q) := CacheEntry(Search(t, app.w, user, q, topK), now + TTL)])
  {
  }

  /** A first answer that a mutation changes but does not drop is served stale. */
  lemma SurvivorIsStale(t: Text, app: App, req: Request, user: string, topK: nat, q: string, now: int)
    requires app.cache == map[] && Mutates(req) && now <= req.now < now + TTL
    requires Key(user, topK, q) !in Dropped(t, app.w, req)
    requires Search(t, Step(t, app.w, OpOf(req)), user, q, topK) != Search(t, app.w, user, q, topK)
    ensures ServesStale(t, Handle(t, Handle(t, app, SearchRequest(user, topK, q, now, true, true)), req),
      user, topK, q, req.now)
  {
    FirstSearch(t, app, user, topK, q, now);
    HandleMutation(t, Handle(t, app, SearchRequest(user, topK, q, now, true, true)), req);
  }

  /** Likewise a delete: its commit or its close is reported failed, or the invalidation is lost. */
  lemma MissedDeleteServesStale(t: Text, r: AddRequest, f: Faults, topK: nat, q: string, now: int, later: int,
                                scan: seq<string>, completed: nat)
    requires FactOf(t, r).Some? && TakesEffect(f.commit) && now <= later < now + TTL
    requires f.commit != Succeeds || !Ok(f.close) || Key(r.user, topK, q) !in Evicted(scan, completed)
    ensures ServesStale(t, Serve(t, [AddMemory(r, NoFaults, [], 0, now),
      SearchRequest(r.user, topK, q, now, true, true), DeleteMemory(r.id, f, scan, completed, later)]),
      r.user, topK, q, later)
  {
    var first, second := AddMemory(r, NoFaults, [], 0, now), SearchRequest(r.user, topK, q, now, true, true);
    var third := DeleteMemory(r.id, f, scan, completed, later);
    ServeThree(t, first, second, third);
    AddedState(t, r, now);
    DeleteServesStale(t, Handle(t, App(Empty, map[]), first), r.id, f, topK, q, now, later, scan, completed);
  }

  lemma AddedState(t: Text, r: AddRequest, now: int)
    requires FactOf(t, r).Some?
    ensures
      var app := Handle(t, App(Empty, map[]), AddMemory(r, NoFaults, [], 0, now));
      app.cache == map[] && Safe(t, app.w, {}) && app.w.order == [r.id] && ActiveFor(app.w.rows, r.id, r.user)
  {
    HandleMutation(t, App(Empty, map[]), AddMemory(r, NoFaults, [], 0, now));
    EmptyIsSafe(t);
    StepSafe(t, Empty, {}, Add(r, NoFaults));
    assert {} + TornBy(Empty, Add(r, NoFaults)) == {};
    AddedAlone(t, r, NoFaults);
  }

  lemma DeleteServesStale(t: Text, app: App, id: Uuid, f: Faults, topK: nat, q: string, now: int, later: int,
                          scan: seq<string>, completed: nat)
    requires app.cache == map[] && Safe(t, app.w, {}) && app.w.order == [id] && id in app.w.rows
    requires app.w.rows[id].active && TakesEffect(f.commit) && now <= later < now + TTL
    requires f.commit != Succeeds || !Ok(f.close) || Key(app.w.rows[id].user, topK, q) !in Evicted(scan, completed)
    ensures ServesStale(t, Handle(t, Handle(t, app, SearchRequest(app.w.rows[id].user, topK, q, now, true, true)),
      DeleteMemory(id, f, scan, completed, later)), app.w.rows[id].user, topK, q, later)
  {
    DeleteKeeps(t, app.w, id, f, Key(app.w.rows[id].user, topK, q), later, scan, completed);
    CommittedDeleteShows(t, app.w, {}, id, f, q, topK);
    SurvivorIsStale(t, app, DeleteMemory(id, f, scan, completed, later), app.w.rows[id].user, topK, q, now);
  }

  /** A committed add to empty stores: its row is the only one, and a failure after the commit raises. */
  lemma AddedAlone(t: Text, r: AddRequest, f: Faults)
    requires FactOf(t, r).Some? && TakesEffect(f.commit)
    ensures var w := Step(t, Empty, Add(r, f)); w.order == [r.id] && ActiveFor(w.rows, r.id, r.user)
    ensures f.commit != Succeeds || !Ok(f.link) ==> AddStep(t, Empty, r, f).1.AddRaised?
  {
    StoreRows(t, Tick(Empty), r, FactOf(t, r).value, 0, f);
  }

  lemma DeleteKeeps(t: Text, w: World, id: Uuid, f: Faults, key: string, later: int, scan: seq<string>, completed: nat)
    requires w.order == [id] && id in w.rows && w.rows[id].active && TakesEffect(f.commit)
    requires f.commit != Succeeds || !Ok(f.close) || key !in Evicted(scan, completed)
    ensures key !in Dropped(t, w, DeleteMemory(id, f, scan, completed, later))
  {
  }

  /* ---------- when the cache stays coherent ---------- */

  /** The answer has room for more than the user's active rows. */
  predicate Roomy(w: World, user: string, k: nat) { |ActiveOf(w.order, w.rows, user)| < k }

  /** After a mutation, however it fails, a cached answer with room for one more row is gone or right exactly when it
      was invalidated or the mutation is unseen by its query. */
  lemma SurvivingAnswerIff(t: Text, app: App, torn: set<Uuid>, users: set<string>, req: Request, user: string, k: nat,
                           q: string)
    requires KeepsMarks(t) && Coherent(t, app, users, req.now) && Safe(t, app.w, torn) && user in users && TopKOk(k)
    requires Mutates(req) && Touches(app.w, OpOf(req), user) && Live(app.cache, Key(user, k, q), req.now)
    requires Roomy(app.w, user, k)
    ensures
      var app', key := Handle(t, app, req), Key(user, k, q);
      !Live(app'.cache, key, req.now) || app'.cache[key].items == Search(t, app'.w, user, q, k)
      <==> key in Dropped(t, app.w, req) || Unseen(t, app.w, OpOf(req), q)
  {
    HandleMutation(t, app, req);
    AnswerUnchangedIff(t, app.w, torn, OpOf(req), user, q, k);
  }

  /** After every request the cache is coherent at that moment. */
  ghost predicate AlwaysCoherent(t: Text, reqs: seq<Request>, users: set<string>) {
    reqs != [] ==>
      && AlwaysCoherent(t, reqs[..|reqs| - 1], users)
      && Coherent(t, Serve(t, reqs), users, reqs[|reqs| - 1].now)
  }

  /** Every answer that Redis holds for a user when one of the user's memories is mutated, and that survives, has room
      for one more row. */
  ghost predicate RoomyCache(t: Text, app: App, req: Request, users: set<string>)
    requires Mutates(req)
  {
    forall u :: u in users && Touches(app.w, OpOf(req), u) ==> RoomyFor(t, app, req, u)
  }

  ghost predicate RoomyFor(t: Text, app: App, req: Request, user: string)
    requires Mutates(req)
  {
    forall k: nat, q :: TopKOk(k) && Survives(t, app, req, Key(user, k, q)) ==> Roomy(app.w, user, k)
  }

  ghost predicate RoomyRun(t: Text, reqs: seq<Request>, users: set<string>) {
    reqs != [] ==>
      var app, req := Serve(t, reqs[..|reqs| - 1]), reqs[|reqs| - 1];
      && RoomyRun(t, reqs[..|reqs| - 1], users)
      && Known(req, users) && (Mutates(req) ==> RoomyCache(t, app, req, users))
  }

  lemma CoherentStepIsHealthy(t: Text, app: App, torn: set<Uuid>, users: set<string>, req: Request)
    requires KeepsMarks(t) && Coherent(t, app, users, req.now) && Safe(t, app.w, torn) && Known(req, users)
    requires Mutates(req) ==> RoomyCache(t, app, req, users)
    requires Coherent(t, Handle(t, app, req), users, req.now)
    ensures Healthy(t, app, req, users)
  {
    if Mutates(req) {
      forall u, k: nat, q | u in users && Touches(app.w, OpOf(req), u)
          && TopKOk(k) && Survives(t, app, req, Key(u, k, q))
        ensures Unseen(t, app.w, OpOf(req), q)
      {
        assert RoomyFor(t, app, req, u);
        SurvivingAnswerIff(t, app, torn, users, req, u, k, q);
      }
    }
  }

  /** Over such runs the cache is coherent throughout exactly when every request is healthy. */
  lemma {:induction false} CoherentIffHealthy(t: Text, reqs: seq<Request>, users: set<string>, now: int)
    requires KeepsMarks(t) && Separated(users) && RoomyRun(t, reqs, users) && Timely(reqs, now)
    ensures AlwaysCoherent(t, reqs, users) <==> HealthyRun(t, reqs, users)
  {
    if reqs != [] {
      var front, req := reqs[..|reqs| - 1], reqs[|reqs| - 1];
      CoherentIffHealthy(t, front, users, req.now);
      if HealthyRun(t, front, users) {
        var torn := ServeInvariant(t, front, users, req.now);
        if Healthy(t, Serve(t, front), req, users) {
          var torn' := ServeInvariant(t, reqs, users, req.now);
        } else if Coherent(t, Serve(t, reqs), users, req.now) {
          CoherentStepIsHealthy(t, Serve(t, front), torn, users, req);
          assert false;
        }
      }
    }
  }

  /* ---------- the routes ---------- */

  class Redis {
    var entries: Cache

    constructor ()
      ensures entries == map[]
    {
      entries := map[];
    }
  }

  class MemoryRoutes {
    const backend: MockMemoryBackend
    const redis: Redis

    constructor (backend: MockMemoryBackend, redis: Redis)
      ensures this.backend == backend && this.redis == redis
    {
      this.backend, this.redis := backend, redis;
    }

    function State(): App
      reads this, backend, backend.graph, redis
    {
      App(backend.Contents(), redis.entries)
    }

    /** `_cache_delete_user`: delete the scanned keys one by one until done or until Redis fails. */
    method CacheDeleteUser(scan: seq<string>, completed: nat)
      modifies redis
      ensures redis.entries == old(redis.entries) - Evicted(scan, completed)
    {
      var i := 0;
      while i < |scan| && i < completed
        invariant 0 <= i <= |scan| && i <= completed
        invariant redis.entries == old(redis.entries) - Evicted(scan, i)
      {
        redis.entries := redis.entries - {scan[i]};
        i := i + 1;
        assert Evicted(scan, i) == Evicted(scan, i - 1) + {scan[i - 1]} by {
          assert scan[..i] == scan[..i - 1] + [scan[i - 1]];
        }
      }
      assert Take(scan, i) == Take(scan, completed);
    }

    method SearchMemories(user: string, topK: nat, q: string, now: int, getUp: bool,
                          setUp: bool) returns (items: seq<Ranked>, hit: bool)
      modifies redis
      ensures (State(), items, hit) == SearchHandler(backend.t, old(State()), user, topK, q, now, getUp, setUp)
    {
      var key := Key(user, topK, q);
      var cached := CacheGet(redis.entries, key, now, getUp);
      if cached.Some? {
        return cached.value, true;
      }
      items := backend.SearchFor(q, user, topK);
      redis.entries := CacheSet(redis.entries, key, items, now, setUp);
      hit := false;
    }

    method PostMemory(r: AddRequest, f: Faults, scan: seq<string>, completed: nat) returns (reply: AddReply)
      modifies backend, backend.graph, redis
      ensures (State(), reply) == AddHandler(backend.t, old(State()), r, f, Evicted(scan, completed))
    {
      reply := backend.Add(r, f);
      if reply.AddRaised? {
        return;
      }
      CacheDeleteUser(scan, completed);
    }

    method RemoveMemory(id: Uuid, f: Faults, scan: seq<string>, completed: nat) returns (reply: DeleteReply)
      modifies backend, backend.graph, redis
      ensures (State(), reply) == DeleteHandler(old(State()), id, f, Evicted(scan, completed))
    {
      reply := backend.Delete(id, f);
      if !reply.DeletedRow? {
        return;
      }
      CacheDeleteUser(scan, completed);
    }
  }
}
