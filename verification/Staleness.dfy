/** How stale a cached answer can be when anything may fail and handlers overlap: app/routers/memories.py. */
module Staleness {
  import opened Domain
  import opened Retrieval
  import opened Stores
  import opened MockBackend
  import opened CrashSafety
  import opened Frame
  import opened Visibility
  import opened CacheKeys
  import opened SearchCache

  /** One observable step of the service.  A handler that missed computes, then stores, with other steps in between;
      a failed cache call is a step that does not happen; mutations of the stores are unrestricted. */
  datatype CacheStep =
    | Mutate(w: World)
    | Compute(task: nat, user: string, topK: nat, q: string)
    | Store(task: nat, now: int)
    | Drop(keys: set<string>)
    | Look(user: string, topK: nat, q: string, now: int)

  datatype Pending = Pending(key: string, items: seq<Ranked>)

  datatype Service = Service(w: World, cache: Cache, pending: map<nat, Pending>)

  function ServiceStep(t: Text, s: Service, step: CacheStep): Service {
    match step
    case Mutate(w) => s.(w := w)
    case Compute(task, user, topK, q) => s.(pending := s.pending[task := Pending(Key(user, topK, q),
      Search(t, s.w, user, q, topK))])
    case Store(task, now) =>
      if task in s.pending then s.(cache := CacheSet(s.cache, s.pending[task].key, s.pending[task].items, now, true))
        else s
    case Drop(keys) => s.(cache := s.cache - keys)
    case Look(_, _, _, _) => s
  }

  function After(t: Text, steps: seq<CacheStep>, n: nat): Service
    requires n <= |steps|
  {
    if n == 0 then Service(Empty, map[], map[]) else ServiceStep(t, After(t, steps, n - 1), steps[n - 1])
  }

  /** Step `i` ran `backend.search` under this key and got these items. */
  ghost predicate Computed(t: Text, steps: seq<CacheStep>, i: nat, key: string, items: seq<Ranked>) {
    && i < |steps| && steps[i].Compute?
    && Key(steps[i].user, steps[i].topK, steps[i].q) == key
    && Search(t, After(t, steps, i).w, steps[i].user, steps[i].q, steps[i].topK) == items
  }

  /** Step `j` put the entry into the cache. */
  ghost predicate StoredAt(steps: seq<CacheStep>, j: nat, entry: CacheEntry) {
    j < |steps| && steps[j].Store? && entry.expires == steps[j].now + TTL
  }

  ghost predicate Explained(t: Text, steps: seq<CacheStep>, n: nat, key: string, entry: CacheEntry) {
    exists i: nat, j: nat :: i < j < n && Computed(t, steps, i, key, entry.items) && StoredAt(steps, j, entry)
  }

  ghost predicate Backed(t: Text, steps: seq<CacheStep>, n: nat, p: Pending) {
    exists i: nat :: i < n && Computed(t, steps, i, p.key, p.items)
  }

  ghost predicate PendingBacked(t: Text, steps: seq<CacheStep>, n: nat)
    requires n <= |steps|
  {
    forall task :: task in After(t, steps, n).pending ==> Backed(t, steps, n, After(t, steps, n).pending[task])
  }

  ghost predicate CacheExplained(t: Text, steps: seq<CacheStep>, n: nat)
    requires n <= |steps|
  {
    forall key :: key in After(t, steps, n).cache ==> Explained(t, steps, n, key, After(t, steps, n).cache[key])
  }

  lemma PendingStep(t: Text, steps: seq<CacheStep>, n: nat)
    requires n < |steps| && PendingBacked(t, steps, n)
    ensures PendingBacked(t, steps, n + 1)
  {
    var s, s' := After(t, steps, n), After(t, steps, n + 1);
    forall task | task in s'.pending ensures Backed(t, steps, n + 1, s'.pending[task]) {
      if steps[n].Compute? && steps[n].task == task {
        assert Computed(t, steps, n, s'.pending[task].key, s'.pending[task].items);
      } else {
        assert Backed(t, steps, n, s.pending[task]);
        var i: nat :| i < n && Computed(t, steps, i, s.pending[task].key, s.pending[task].items);
      }
    }
  }

  lemma ExplainedLater(t: Text, steps: seq<CacheStep>, n: nat, key: string, entry: CacheEntry)
    requires Explained(t, steps, n, key, entry)
    ensures Explained(t, steps, n + 1, key, entry)
  {
    var i: nat, j: nat :| i < j < n && Computed(t, steps, i, key, entry.items) && StoredAt(steps, j, entry);
    assert i < j < n + 1;
  }

  lemma StoreExplained(t: Text, steps: seq<CacheStep>, n: nat, p: Pending)
    requires n < |steps| && steps[n].Store? && Backed(t, steps, n, p)
    ensures Explained(t, steps, n + 1, p.key, CacheEntry(p.items, steps[n].now + TTL))
  {
    var entry := CacheEntry(p.items, steps[n].now + TTL);
    var i: nat :| i < n && Computed(t, steps, i, p.key, p.items);
    assert StoredAt(steps, n, entry);
    assert i < n < n + 1 && Computed(t, steps, i, p.key, entry.items);
  }

  predicate StoresKey(s: Service, step: CacheStep, key: string) {
    step.Store? && step.task in s.pending && s.pending[step.task].key == key
  }

  lemma EntryOrigin(t: Text, s: Service, step: CacheStep, key: string)
    requires key in ServiceStep(t, s, step).cache
    ensures StoresKey(s, step, key) ==>
      ServiceStep(t, s, step).cache[key] == CacheEntry(s.pending[step.task].items, step.now + TTL)
    ensures !StoresKey(s, step, key) ==> key in s.cache && ServiceStep(t, s, step).cache[key] == s.cache[key]
  {
  }

  lemma CacheStepExplained(t: Text, steps: seq<CacheStep>, n: nat)
    requires n < |steps| && PendingBacked(t, steps, n) && CacheExplained(t, steps, n)
    ensures CacheExplained(t, steps, n + 1)
  {
    var s, s' := After(t, steps, n), After(t, steps, n + 1);
    forall key | key in s'.cache ensures Explained(t, steps, n + 1, key, s'.cache[key]) {
      EntryOrigin(t, s, steps[n], key);
      if StoresKey(s, steps[n], key) {
        assert Backed(t, steps, n, s.pending[steps[n].task]);
        StoreExplained(t, steps, n, s.pending[steps[n].task]);
      } else {
        assert Explained(t, steps, n, key, s.cache[key]);
        ExplainedLater(t, steps, n, key, s.cache[key]);
      }
    }
  }

  lemma NothingYet(t: Text, steps: seq<CacheStep>)
    ensures PendingBacked(t, steps, 0) && CacheExplained(t, steps, 0)
  {
  }

  lemma {:induction false} EveryEntryExplained(t: Text, steps: seq<CacheStep>, n: nat)
    requires n <= |steps|
    ensures PendingBacked(t, steps, n) && CacheExplained(t, steps, n)
  {
    if n == 0 {
      NothingYet(t, steps);
    } else {
      EveryEntryExplained(t, steps, n - 1);
      PendingStep(t, steps, n - 1);
      CacheStepExplained(t, steps, n - 1);
    }
  }

  /** The search handler, run without interruption, is a look followed on a miss by a compute and a store.  A look that
      Redis fails on is a miss, and a store it fails on does not happen. */
  lemma HandlerIsSteps(t: Text, s: Service, task: nat, user: string, topK: nat, q: string, now: int, getUp: bool,
                       setUp: bool)
    ensures
      var (app, items, hit) := SearchHandler(t, App(s.w, s.cache), user, topK, q, now, getUp, setUp);
      var computed := ServiceStep(t, s, Compute(task, user, topK, q));
      var stored := if setUp then ServiceStep(t, computed, Store(task, now)) else computed;
      && hit == (getUp && Key(user, topK, q) in s.cache && now < s.cache[Key(user, topK, q)].expires)
      && if hit then items == s.cache[Key(user, topK, q)].items && app == App(s.w, s.cache)
         else items == computed.pending[task].items && app == App(stored.w, stored.cache)
  {
  }

  /** Bounded staleness: every hit returns a value `backend.search` produced for the same user, limit and query, stored
      less than sixty seconds before, whatever failed, raced or was mutated meanwhile. */
  lemma HitsAreRecent(t: Text, steps: seq<CacheStep>, n: nat, users: set<string>) returns (i: nat, j: nat)
    requires Separated(users)
    requires forall m :: 0 <= m < |steps| && steps[m].Compute? ==> steps[m].user in users && TopKOk(steps[m].topK)
    requires n < |steps| && steps[n].Look? && steps[n].user in users && TopKOk(steps[n].topK)
    requires CacheGet(After(t, steps, n).cache, Key(steps[n].user, steps[n].topK, steps[n].q), steps[n].now, true).Some?
    ensures i < j < n
    ensures steps[i].Compute? && steps[i].user == steps[n].user && steps[i].topK == steps[n].topK
      && steps[i].q == steps[n].q
    ensures steps[j].Store? && steps[n].now - steps[j].now < TTL
    ensures CacheGet(After(t, steps, n).cache, Key(steps[n].user, steps[n].topK, steps[n].q), steps[n].now, true)
      == Some(Search(t, After(t, steps, i).w, steps[n].user, steps[n].q, steps[n].topK))
  {
    var key := Key(steps[n].user, steps[n].topK, steps[n].q);
    EveryEntryExplained(t, steps, n);
    var entry := After(t, steps, n).cache[key];
    assert Explained(t, steps, n, key, entry);
    i, j :| i < j < n && Computed(t, steps, i, key, entry.items) && StoredAt(steps, j, entry);
    KeysDiffer(users, steps[i].user, steps[i].topK, steps[i].q, steps[n].user, steps[n].topK, steps[n].q);
  }

  /* ---------- when a hit is current ---------- */

  /** No mutation from step `i` on, before step `n`, changes what a search of the user for `q` works from. */
  ghost predicate Quiet(t: Text, steps: seq<CacheStep>, i: nat, n: nat, user: string, q: string)
    requires n <= |steps|
  {
    forall m :: i <= m < n && steps[m].Mutate? ==> SameInputs(t, After(t, steps, m).w, steps[m].w, user, q)
  }

  lemma {:induction false} QuietKeepsInputs(t: Text, steps: seq<CacheStep>, i: nat, n: nat, user: string, q: string)
    requires i <= n <= |steps| && Quiet(t, steps, i, n, user, q)
    ensures SameInputs(t, After(t, steps, i).w, After(t, steps, n).w, user, q)
  {
    if i < n {
      QuietKeepsInputs(t, steps, i, n - 1, user, q);
      var a, b, c := After(t, steps, i).w, After(t, steps, n - 1).w, After(t, steps, n).w;
      if steps[n - 1].Mutate? { InputsCompose(t, a, b, c, user, q); }
    }
  }

  /** An operation of the backend is such a mutation when it touches another user or is unseen. */
  lemma OperationIsQuiet(t: Text, w: World, torn: set<Uuid>, op: Op, user: string, q: string)
    requires Safe(t, w, torn) && (!Touches(w, op, user) || Unseen(t, w, op, q))
    ensures SameInputs(t, w, Step(t, w, op), user, q)
  {
    if Touches(w, op, user) {
      UnseenSameInputs(t, w, torn, op, user, q);
    } else {
      UntouchedSameInputs(t, w, torn, op, user, q);
    }
  }

  ghost predicate SmallEnough(w: World, user: string, topK: nat) {
    WellFormed(w) && |ActiveOf(w.order, w.rows, user)| <= ClampTopK(topK)
  }

  /** A hit is the backend's present answer whenever nothing between its computation and the look was seen by the query.
      When all active rows fit in the answer both times, it is so exactly when a search works from the same candidates
      with the same boosts as then. */
  lemma HitIsCurrentIff(t: Text, steps: seq<CacheStep>, n: nat, users: set<string>) returns (i: nat, j: nat)
    requires Separated(users)
    requires forall m :: 0 <= m < |steps| && steps[m].Compute? ==> steps[m].user in users && TopKOk(steps[m].topK)
    requires n < |steps| && steps[n].Look? && steps[n].user in users && TopKOk(steps[n].topK)
    requires CacheGet(After(t, steps, n).cache, Key(steps[n].user, steps[n].topK, steps[n].q), steps[n].now, true).Some?
    ensures i < j < n && steps[j].Store? && steps[n].now - steps[j].now < TTL
    ensures steps[i].Compute? && steps[i].user == steps[n].user && steps[i].topK == steps[n].topK
      && steps[i].q == steps[n].q
    ensures
      var (user, k, q) := (steps[n].user, steps[n].topK, steps[n].q);
      var computedIn, seenIn := After(t, steps, i).w, After(t, steps, n).w;
      var hit := CacheGet(After(t, steps, n).cache, Key(user, k, q), steps[n].now, true).value;
      && (Quiet(t, steps, i, n, user, q) ==> hit == Search(t, seenIn, user, q, k))
      && (KeepsMarks(t) && SmallEnough(computedIn, user, k) && SmallEnough(seenIn, user, k) ==>
            (hit == Search(t, seenIn, user, q, k) <==> SameInputs(t, computedIn, seenIn, user, q)))
  {
    i, j := HitsAreRecent(t, steps, n, users);
    var user, k, q, w, w' := steps[n].user, steps[n].topK, steps[n].q, After(t, steps, i).w, After(t, steps, n).w;
    if Quiet(t, steps, i, n, user, q) {
      QuietKeepsInputs(t, steps, i, n, user, q);
      SameInputsSameSearch(t, w, w', user, q, k);
    }
    if KeepsMarks(t) && SmallEnough(w, user, k) && SmallEnough(w', user, k) {
      SearchesAgreeIff(t, w, w', user, q, k);
    }
  }

  /** Overlapping handlers do serve stale answers: a search computes, an add and its whole invalidation follow, and then
      the search stores.  Whatever keys the invalidation drops, the next look hits an answer without the added one. */
  lemma OverlapServesStale(t: Text, r: AddRequest, topK: nat, q: string, dropped: set<string>, now: int)
    requires FactOf(t, r).Some?
    ensures
      var added := AddStep(t, Empty, r, NoFaults).0;
      var s := After(t, [Compute(0, r.user, topK, q), Mutate(added), Drop(dropped), Store(0, now)], 4);
      var hit := CacheGet(s.cache, Key(r.user, topK, q), now, true);
      s.w == added && hit.Some? && hit.value != Search(t, s.w, r.user, q, topK)
  {
    var added := AddStep(t, Empty, r, NoFaults).0;
    StoredOverlap(t, added, r.user, topK, q, dropped, now);
    AddChanges(t, r, NoFaults, topK, q);
  }

  lemma StoredOverlap(t: Text, w: World, user: string, topK: nat, q: string, dropped: set<string>, now: int)
    ensures
      var s := After(t, [Compute(0, user, topK, q), Mutate(w), Drop(dropped), Store(0, now)], 4);
      s.w == w && CacheGet(s.cache, Key(user, topK, q), now, true) == Some(Search(t, Empty, user, q, topK))
  {
    var steps := [Compute(0, user, topK, q), Mutate(w), Drop(dropped), Store(0, now)];
    assert After(t, steps, 0) == Service(Empty, map[], map[]);
    assert After(t, steps, 1).pending[0] == Pending(Key(user, topK, q), Search(t, Empty, user, q, topK));
    assert After(t, steps, 2) == ServiceStep(t, After(t, steps, 1), steps[1]);
    assert After(t, steps, 3) == ServiceStep(t, After(t, steps, 2), steps[2]);
    assert After(t, steps, 4) == ServiceStep(t, After(t, steps, 3), steps[3]);
  }
}
