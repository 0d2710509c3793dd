/** An evaluation does not depend on what the stores held before it, or on the ids it draws. */
module Hermetic {
  import opened Domain
  import opened Retrieval
  import opened Stores
  import opened MockBackend
  import opened Coupling
  import opened Conservation
  import opened Scoring
  import opened Runner
  import opened Verdict

  type Renaming = map<Uuid, Uuid>

  ghost predicate Injective(m: Renaming) {
    forall x, y :: x in m && y in m && m[x] == m[y] ==> x == y
  }

  /** The row order lists stored rows only. */
  ghost predicate OrderStored(w: World) { AllStored(w.order, w.rows) }

  ghost predicate AllStored(order: seq<Uuid>, rows: map<Uuid, Row>) {
    forall id :: id in order ==> id in rows
  }

  function EdgesOf(edges: seq<Edge>, user: string): seq<Edge> {
    if edges == [] then []
    else
      var n := |edges| - 1;
      EdgesOf(edges[..n], user) + if edges[n].user == user then [edges[n]] else []
  }

  /* ---------- what it means for two namespaces to look alike ---------- */

  ghost predicate SameIds(m: Renaming, a: seq<Uuid>, b: seq<Uuid>) {
    |a| == |b| && forall i :: 0 <= i < |a| ==> a[i] in m && b[i] == m[a[i]]
  }

  ghost predicate SameEdge(m: Renaming, d: int, e: Edge, e': Edge) {
    && e.memoryId in m && e'.memoryId == m[e.memoryId]
    && e'.user == e.user && e'.fact == e.fact && e'.validFrom == e.validFrom + d
    && (Open(e') <==> Open(e))
  }

  ghost predicate SameEdgeList(m: Renaming, d: int, a: seq<Edge>, b: seq<Edge>) {
    |a| == |b| && forall i :: 0 <= i < |a| ==> SameEdge(m, d, a[i], b[i])
  }

  ghost predicate SameRow(row: Row, row': Row) {
    && row'.user == row.user && row'.agentId == row.agentId && row'.runId == row.runId
    && row'.content == row.content && row'.embedding == row.embedding && row'.active == row.active
  }

  ghost predicate RowsMatch(m: Renaming, rows: map<Uuid, Row>, rows': map<Uuid, Row>, user: string) {
    forall x :: x in m ==> x in rows && m[x] in rows' && rows[x].user == user && SameRow(rows[x], rows'[m[x]])
  }

  /** The user's data in the two worlds is the same up to the renaming of ids and a shift of the clock. */
  ghost predicate Alike(m: Renaming, d: int, w: World, w': World, user: string) {
    && Injective(m) && OrderStored(w) && OrderStored(w')
    && w'.clock == w.clock + d
    && RowsMatch(m, w.rows, w'.rows, user)
    && SameIds(m, ActiveOf(w.order, w.rows, user), ActiveOf(w'.order, w'.rows, user))
    && SameEdgeList(m, d, EdgesOf(w.edges, user), EdgesOf(w'.edges, user))
  }

  /* ---------- the graph lookup ---------- */

  lemma {:induction false} LookupIsLocal(edges: seq<Edge>, user: string, entity: string, relation: string)
    ensures FindActive(EdgesOf(edges, user), user, entity, relation) == FindActive(edges, user, entity, relation)
  {
    if edges != [] {
      var n := |edges| - 1;
      LookupIsLocal(edges[..n], user, entity, relation);
      if edges[n].user == user {
        LookupPush(EdgesOf(edges[..n], user), edges[n], user, entity, relation);
      } else {
        assert EdgesOf(edges, user) == EdgesOf(edges[..n], user);
      }
    }
  }

  lemma LookupPush(edges: seq<Edge>, e: Edge, user: string, entity: string, relation: string)
    ensures FindActive(edges + [e], user, entity, relation)
      == Newer(FindActive(edges, user, entity, relation), e, user, entity, relation)
  {
  }

  lemma {:induction false} LookupRenames(m: Renaming, d: int, a: seq<Edge>, b: seq<Edge>, user: string, entity: string,
                                         relation: string)
    requires SameEdgeList(m, d, a, b)
    ensures SameFound(m, d, FindActive(a, user, entity, relation), FindActive(b, user, entity, relation))
  {
    if a != [] {
      var n := |a| - 1;
      LookupRenames(m, d, a[..n], b[..n], user, entity, relation);
      assert SameEdge(m, d, a[n], b[n]);
    }
  }

  ghost predicate SameId(m: Renaming, x: Option<Uuid>, y: Option<Uuid>) {
    (x.Some? <==> y.Some?) && (x.Some? ==> x.value in m && y.value == m[x.value])
  }

  ghost predicate SameFound(m: Renaming, d: int, x: Option<Edge>, y: Option<Edge>) {
    (x.Some? <==> y.Some?) && (x.Some? ==> SameEdge(m, d, x.value, y.value))
  }

  lemma FoundRenames(m: Renaming, d: int, edges: seq<Edge>, edges': seq<Edge>, user: string, entity: string,
                     relation: string)
    requires SameEdgeList(m, d, EdgesOf(edges, user), EdgesOf(edges', user))
    ensures SameFound(m, d, FindActive(edges, user, entity, relation), FindActive(edges', user, entity, relation))
  {
    LookupIsLocal(edges, user, entity, relation);
    LookupIsLocal(edges', user, entity, relation);
    LookupRenames(m, d, EdgesOf(edges, user), EdgesOf(edges', user), user, entity, relation);
  }

  lemma ContradictedRenames(m: Renaming, d: int, x: Option<Edge>, y: Option<Edge>, obj: string)
    requires SameFound(m, d, x, y)
    ensures SameId(m, Contradicted(x, obj), Contradicted(y, obj))
  {
  }

  lemma DisplacedRenames(m: Renaming, d: int, edges: seq<Edge>, edges': seq<Edge>, user: string, fact: Fact)
    requires SameEdgeList(m, d, EdgesOf(edges, user), EdgesOf(edges', user))
    ensures SameId(m, Displaced(edges, user, fact), Displaced(edges', user, fact))
  {
    FoundRenames(m, d, edges, edges', user, fact.entity, fact.relation);
    ContradictedRenames(m, d, FindActive(edges, user, fact.entity, fact.relation),
      FindActive(edges', user, fact.entity, fact.relation), fact.obj);
  }

  /* ---------- one store step ---------- */

  lemma {:induction false} CloseIsLocal(edges: seq<Edge>, user: string, id: Uuid, at: int)
    ensures EdgesOf(CloseEdges(edges, id, at), user) == CloseEdges(EdgesOf(edges, user), id, at)
  {
    if edges != [] {
      var n := |edges| - 1;
      CloseIsLocal(edges[..n], user, id, at);
      assert CloseEdges(edges, id, at)[..n] == CloseEdges(edges[..n], id, at);
    }
  }

  lemma CloseRenames(m: Renaming, d: int, a: seq<Edge>, b: seq<Edge>, id: Uuid, at: int, at': int)
    requires Injective(m) && SameEdgeList(m, d, a, b) && id in m
    ensures SameEdgeList(m, d, CloseEdges(a, id, at), CloseEdges(b, m[id], at'))
  {
  }

  lemma KeptRenames(m: Renaming, d: int, edges: seq<Edge>, edges': seq<Edge>, user: string, x: Option<Uuid>,
                    y: Option<Uuid>, now: int, now': int)
    requires Injective(m) && SameEdgeList(m, d, EdgesOf(edges, user), EdgesOf(edges', user)) && SameId(m, x, y)
    ensures SameEdgeList(m, d, EdgesOf(EdgesAfterClose(edges, x, now), user),
      EdgesOf(EdgesAfterClose(edges', y, now'), user))
  {
    if x.Some? {
      CloseIsLocal(edges, user, x.value, now);
      CloseIsLocal(edges', user, y.value, now');
      CloseRenames(m, d, EdgesOf(edges, user), EdgesOf(edges', user), x.value, now, now');
    }
  }

  function Drop(s: seq<Uuid>, id: Uuid): seq<Uuid> {
    if s == [] then []
    else
      var n := |s| - 1;
      Drop(s[..n], id) + if s[n] == id then [] else [s[n]]
  }

  lemma {:induction false} DropRenames(m: Renaming, a: seq<Uuid>, b: seq<Uuid>, id: Uuid)
    requires Injective(m) && SameIds(m, a, b) && id in m
    ensures SameIds(m, Drop(a, id), Drop(b, m[id]))
  {
    if a != [] {
      DropRenames(m, a[..|a| - 1], b[..|a| - 1], id);
    }
  }

  lemma DropPush(s: seq<Uuid>, x: Uuid, id: Uuid)
    ensures Drop(s + [x], id) == Drop(s, id) + if x == id then [] else [x]
    ensures Drop(s + [], id) == Drop(s, id)
  {
    assert (s + [x])[..|s|] == s;
    assert s + [] == s;
  }

  lemma {:induction false} RetireDrops(order: seq<Uuid>, rows: map<Uuid, Row>, rows': map<Uuid, Row>, user: string,
                                       id: Uuid)
    requires forall x :: x in order && x != id ==> (ActiveFor(rows', x, user) <==> ActiveFor(rows, x, user))
    requires !ActiveFor(rows', id, user)
    ensures ActiveOf(order, rows', user) == Drop(ActiveOf(order, rows, user), id)
  {
    if order != [] {
      var n := |order| - 1;
      assert order == order[..n] + [order[n]];
      RetireDrops(order[..n], rows, rows', user, id);
      DropPush(ActiveOf(order[..n], rows, user), order[n], id);
    }
  }

  lemma RowsAfterCommit(w: World, id: Uuid, row: Row, displaced: Option<Uuid>, user: string)
    requires OrderStored(w) && id !in w.rows && row.user == user && row.active
    requires displaced.Some? ==> displaced.value in w.rows
    ensures
      var w1 := CommitAdd(w, id, row, displaced);
      OrderStored(w1) && ActiveOf(w1.order, w1.rows, user)
        == (if displaced.Some? then Drop(ActiveOf(w.order, w.rows, user), displaced.value)
          else ActiveOf(w.order, w.rows, user)) + [id]
  {
    var w1 := CommitAdd(w, id, row, displaced);
    ActivePush(w.order, id, w1.rows, user);
    if displaced.Some? {
      RetireDrops(w.order, w.rows, w1.rows, user, displaced.value);
    } else {
      ActiveFrame(w.order, w.rows, w1.rows, user);
    }
  }

  lemma WidenIds(m: Renaming, a: seq<Uuid>, b: seq<Uuid>, id: Uuid, id': Uuid)
    requires SameIds(m, a, b) && id !in m
    ensures SameIds(m[id := id'], a + [id], b + [id'])
  {
  }

  lemma CommittedRowsMatch(m: Renaming, w: World, w': World, user: string, id: Uuid, id': Uuid, row: Row, row': Row,
                           x: Option<Uuid>, y: Option<Uuid>)
    requires Injective(m) && RowsMatch(m, w.rows, w'.rows, user) && id !in w.rows && id' !in w'.rows
    requires SameRow(row, row') && row.user == user
    requires SameId(m, x, y)
    ensures Injective(m[id := id'])
    ensures RowsMatch(m[id := id'], CommitAdd(w, id, row, x).rows, CommitAdd(w', id', row', y).rows, user)
  {
  }

  lemma PushAlike(m: Renaming, d: int, kept: seq<Edge>, kept': seq<Edge>, e: Edge, e': Edge)
    requires SameEdgeList(m, d, EdgesOf(kept, e.user), EdgesOf(kept', e.user)) && e.memoryId !in m
    requires SameEdge(m[e.memoryId := e'.memoryId], d, e, e')
    ensures SameEdgeList(m[e.memoryId := e'.memoryId], d, EdgesOf(kept + [e], e.user), EdgesOf(kept' + [e'], e.user))
  {
  }

  lemma StoreIdsAlike(m: Renaming, w: World, w': World, user: string, id: Uuid, id': Uuid, row: Row, row': Row,
                      x: Option<Uuid>, y: Option<Uuid>)
    requires Injective(m) && OrderStored(w) && OrderStored(w') && id !in w.rows && id' !in w'.rows && id !in m
    requires row.user == user == row'.user && row.active && row'.active
    requires SameIds(m, ActiveOf(w.order, w.rows, user), ActiveOf(w'.order, w'.rows, user))
    requires SameId(m, x, y) && (x.Some? ==> x.value in w.rows && y.value in w'.rows)
    ensures
      var a, b := CommitAdd(w, id, row, x), CommitAdd(w', id', row', y);
      OrderStored(a) && OrderStored(b) && SameIds(m[id := id'], ActiveOf(a.order, a.rows, user),
        ActiveOf(b.order, b.rows, user))
  {
    RowsAfterCommit(w, id, row, x, user);
    RowsAfterCommit(w', id', row', y, user);
    var a, b := ActiveOf(w.order, w.rows, user), ActiveOf(w'.order, w'.rows, user);
    if x.Some? {
      DropRenames(m, a, b, x.value);
      WidenIds(m, Drop(a, x.value), Drop(b, y.value), id, id');
    } else {
      WidenIds(m, a, b, id, id');
    }
  }

  /** A failure-free store, field by field. */
  lemma StoreFields(t: Text, w: World, r: AddRequest, fact: Fact, now: int)
    requires r.id !in w.rows
    ensures
      var x := Displaced(w.edges, r.user, fact);
      var n, c := StoreStep(t, w, r, fact, now, NoFaults).0, CommitAdd(w, r.id, NewRow(t, r, now), x);
      && n.rows == c.rows && n.order == c.order && n.clock == w.clock
      && n.edges == EdgesAfterClose(w.edges, x, now) + [NewEdge(r, fact, now)]
  {
    StoreShape(t, w, r, fact, now);
  }

  lemma StoreEdgesAlike(t: Text, m: Renaming, d: int, w: World, w': World, r: AddRequest, r': AddRequest, fact: Fact,
                        now: int, now': int)
    requires Injective(m) && SameEdgeList(m, d, EdgesOf(w.edges, r.user), EdgesOf(w'.edges, r.user))
    requires SameId(m, Displaced(w.edges, r.user, fact), Displaced(w'.edges, r.user, fact))
    requires r' == r.(id := r'.id) && r.id !in m && now' == now + d && r.id !in w.rows && r'.id !in w'.rows
    ensures SameEdgeList(m[r.id := r'.id], d,
      EdgesOf(StoreStep(t, w, r, fact, now, NoFaults).0.edges, r.user),
        EdgesOf(StoreStep(t, w', r', fact, now', NoFaults).0.edges, r.user))
  {
    var x, y := Displaced(w.edges, r.user, fact), Displaced(w'.edges, r.user, fact);
    StoreFields(t, w, r, fact, now);
    StoreFields(t, w', r', fact, now');
    KeptRenames(m, d, w.edges, w'.edges, r.user, x, y, now, now');
    PushAlike(m, d, EdgesAfterClose(w.edges, x, now), EdgesAfterClose(w'.edges, y, now'), NewEdge(r, fact, now),
      NewEdge(r', fact, now'));
  }

  lemma StoreRowsAlike(t: Text, m: Renaming, w: World, w': World, r: AddRequest, r': AddRequest, fact: Fact, now: int,
                       now': int)
    requires Injective(m) && OrderStored(w) && OrderStored(w') && RowsMatch(m, w.rows, w'.rows, r.user)
    requires SameIds(m, ActiveOf(w.order, w.rows, r.user), ActiveOf(w'.order, w'.rows, r.user))
    requires SameId(m, Displaced(w.edges, r.user, fact), Displaced(w'.edges, r.user, fact))
    requires r' == r.(id := r'.id) && r.id !in w.rows && r'.id !in w'.rows
    ensures
      var n, n' := StoreStep(t, w, r, fact, now, NoFaults).0, StoreStep(t, w', r', fact, now', NoFaults).0;
      && Injective(m[r.id := r'.id]) && OrderStored(n) && OrderStored(n')
      && RowsMatch(m[r.id := r'.id], n.rows, n'.rows, r.user)
      && SameIds(m[r.id := r'.id], ActiveOf(n.order, n.rows, r.user), ActiveOf(n'.order, n'.rows, r.user))
      && n.clock == w.clock && n'.clock == w'.clock
  {
    var x, y := Displaced(w.edges, r.user, fact), Displaced(w'.edges, r.user, fact);
    StoreFields(t, w, r, fact, now);
    StoreFields(t, w', r', fact, now');
    CommittedRowsMatch(m, w, w', r.user, r.id, r'.id, NewRow(t, r, now), NewRow(t, r', now'), x, y);
    StoreIdsAlike(m, w, w', r.user, r.id, r'.id, NewRow(t, r, now), NewRow(t, r', now'), x, y);
  }

  /** The same request, with another id, keeps the namespaces alike. */
  lemma StoreAlike(t: Text, m: Renaming, d: int, w: World, w': World, r: AddRequest, r': AddRequest, fact: Fact,
                   now: int, now': int)
    requires Alike(m, d, w, w', r.user) && r' == r.(id := r'.id) && now' == now + d
    requires r.id !in w.rows && r'.id !in w'.rows
    ensures Alike(m[r.id := r'.id], d, StoreStep(t, w, r, fact, now, NoFaults).0,
      StoreStep(t, w', r', fact, now', NoFaults).0, r.user)
  {
    DisplacedRenames(m, d, w.edges, w'.edges, r.user, fact);
    StoreRowsAlike(t, m, w, w', r, r', fact, now, now');
    StoreEdgesAlike(t, m, d, w, w', r, r', fact, now, now');
  }

  /* ---------- seeding ---------- */

  ghost predicate MarksAlike(m: Renaming, labels: map<string, Uuid>, labels': map<string, Uuid>, flagged: set<Uuid>,
                             flagged': set<Uuid>) {
    && labels.Keys == labels'.Keys
    && (forall l :: l in labels ==> labels[l] in m && labels'[l] == m[labels[l]])
    && (forall x :: x in flagged ==> x in m)
    && (forall x :: x in m ==> (x in flagged <==> m[x] in flagged'))
  }

  ghost predicate SeededAlike(m: Renaming, d: int, s: Seeded, s': Seeded, user: string) {
    Alike(m, d, s.w, s'.w, user) && MarksAlike(m, s.labels, s'.labels, s.flagged, s'.flagged)
  }

  lemma TickAlike(m: Renaming, d: int, w: World, w': World, user: string)
    requires Alike(m, d, w, w', user)
    ensures Alike(m, d, Tick(w), Tick(w'), user)
  {
  }

  lemma SeedWorlds(t: Text, c: Case, s: Seeded, seed: Seed, id: Uuid)
    requires SeedStep(t, c, s, seed, id).Some?
    ensures
      var r := SeedRequest(c, seed, id);
      var s' := SeedStep(t, c, s, seed, id).value;
      if FactOf(t, r).None? then s' == s.(w := Tick(s.w.(events := s.w.events + [NoopEvent(t, r)])))
      else
        && id !in s.w.rows
        && s'.w == StoreStep(t, Tick(s.w), r, FactOf(t, r).value, s.w.clock, NoFaults).0
        && s'.labels == s.labels[seed.name := id]
        && s'.flagged == if seed.sarcasm || seed.falseFact then s.flagged + {id} else s.flagged
  {
  }

  lemma WidenMarks(m: Renaming, labels: map<string, Uuid>, labels': map<string, Uuid>, flagged: set<Uuid>,
                   flagged': set<Uuid>,
                   name: string, id: Uuid, id': Uuid, flag: bool)
    requires MarksAlike(m, labels, labels', flagged, flagged') && id !in m && id' !in flagged'
    requires forall x :: x in m ==> m[x] != id'
    ensures MarksAlike(m[id := id'], labels[name := id], labels'[name := id'],
                       if flag then flagged + {id} else flagged, if flag then flagged' + {id'} else flagged')
  {
  }

  /** Flagged ids are stored rows, so a fresh id is never flagged. */
  ghost predicate FlagsStored(s: Seeded) { forall id :: id in s.flagged ==> id in s.w.rows }

  lemma SeedStepAlike(t: Text, c: Case, m: Renaming, d: int, s: Seeded, s': Seeded, seed: Seed, id: Uuid,
                      id': Uuid) returns (m': Renaming)
    requires SeededAlike(m, d, s, s', c.user) && FlagsStored(s')
    requires SeedStep(t, c, s, seed, id).Some? && SeedStep(t, c, s', seed, id').Some?
    ensures SeededAlike(m', d, SeedStep(t, c, s, seed, id).value, SeedStep(t, c, s', seed, id').value, c.user)
  {
    SeedWorlds(t, c, s, seed, id);
    SeedWorlds(t, c, s', seed, id');
    assert FactOf(t, SeedRequest(c, seed, id)) == FactOf(t, SeedRequest(c, seed, id'));
    if FactOf(t, SeedRequest(c, seed, id)).None? {
      m' := m;
    } else {
      m' := m[id := id'];
      TickAlike(m, d, s.w, s'.w, c.user);
      StoreAlike(t, m, d, Tick(s.w), Tick(s'.w), SeedRequest(c, seed, id), SeedRequest(c, seed, id'),
                 FactOf(t, SeedRequest(c, seed, id)).value, s.w.clock, s'.w.clock);
      WidenMarks(m, s.labels, s'.labels, s.flagged, s'.flagged, seed.name, id, id', seed.sarcasm || seed.falseFact);
    }
  }

  lemma {:induction false} NoneActive(order: seq<Uuid>, rows: map<Uuid, Row>, user: string)
    requires forall id :: id in rows ==> rows[id].user != user
    ensures ActiveOf(order, rows, user) == []
  {
    if order != [] { NoneActive(order[..|order| - 1], rows, user); }
  }

  lemma {:induction false} NoneOwned(edges: seq<Edge>, user: string)
    requires forall e :: e in edges ==> e.user != user
    ensures EdgesOf(edges, user) == []
  {
    if edges != [] {
      NoneOwned(edges[..|edges| - 1], user);
      assert edges[|edges| - 1] in edges;
    }
  }

  lemma {:induction false} KeptOrder(order: seq<Uuid>, gone: set<Uuid>)
    ensures forall id :: id in KeepOthers(order, gone) ==> id in order && id !in gone
  {
    if order != [] { KeptOrder(order[..|order| - 1], gone); }
  }

  /** A cleared namespace is empty, whatever the stores held. */
  lemma ClearedIsEmpty(w: World, user: string)
    requires OrderStored(w)
    ensures
      var w' := ClearUser(w, user);
      && OrderStored(w') && w'.clock == w.clock
      && (forall id :: id in w'.rows ==> w'.rows[id].user != user)
      && ActiveOf(w'.order, w'.rows, user) == [] && EdgesOf(w'.edges, user) == []
  {
    var w' := ClearUser(w, user);
    KeptOrder(w.order, RowIds(w, user));
    forall id | id in w'.rows ensures w'.rows[id].user != user {
      assert w.rows[id].user == user ==> id in RowIds(w, user);
    }
    NoneActive(w'.order, w'.rows, user);
    NoneOwned(w'.edges, user);
  }

  lemma ClearedAlike(w: World, w': World, user: string)
    requires OrderStored(w) && OrderStored(w')
    ensures SeededAlike(map[], w'.clock - w.clock, Cleared(w, user), Cleared(w', user), user)
  {
    ClearedIsEmpty(w, user);
    ClearedIsEmpty(w', user);
  }

  /** If both sides store their seeds, the namespaces look alike. */
  ghost predicate BothAlike(d: int, x: Option<Seeded>, y: Option<Seeded>, user: string) {
    x.Some? && y.Some? ==> FlagsStored(y.value) && exists m :: SeededAlike(m, d, x.value, y.value, user)
  }

  lemma NextSeedAlike(t: Text, c: Case, d: int, p: Seeded, p': Seeded, seed: Seed, id: Uuid, id': Uuid)
    requires BothAlike(d, Some(p), Some(p'), c.user)
    ensures BothAlike(d, SeedStep(t, c, p, seed, id), SeedStep(t, c, p', seed, id'), c.user)
  {
    var x, y := SeedStep(t, c, p, seed, id), SeedStep(t, c, p', seed, id');
    if x.Some? && y.Some? {
      var m :| SeededAlike(m, d, p, p', c.user);
      var m' := SeedStepAlike(t, c, m, d, p, p', seed, id, id');
      SeedStored(t, c, p', seed, id');
      assert SeededAlike(m', d, x.value, y.value, c.user);
    }
  }

  ghost predicate KeepsAlike(step: SeedFn, d: int, user: string) {
    forall p: Seeded, p': Seeded, seed: Seed, id: Uuid, id': Uuid :: BothAlike(d, Some(p), Some(p'), user) ==>
      BothAlike(d, step(p, seed, id), step(p', seed, id'), user)
  }

  lemma {:induction false} SeedManyAlike(step: SeedFn, d: int, user: string, start: Seeded, start': Seeded,
                                         seeds: seq<Seed>,
                                         ids: seq<Uuid>, ids': seq<Uuid>, n: nat)
    requires KeepsAlike(step, d, user) && BothAlike(d, Some(start), Some(start'), user)
      && n <= |seeds| == |ids| == |ids'|
    ensures BothAlike(d, SeedMany(step, start, seeds, ids, n), SeedMany(step, start', seeds, ids', n), user)
  {
    if n > 0 {
      SeedManyAlike(step, d, user, start, start', seeds, ids, ids', n - 1);
      var p, p' := SeedMany(step, start, seeds, ids, n - 1), SeedMany(step, start', seeds, ids', n - 1);
      if p.Some? && p'.Some? {
        assert BothAlike(d, step(p.value, seeds[n - 1], ids[n - 1]), step(p'.value, seeds[n - 1], ids'[n - 1]), user);
      }
    }
  }

  lemma SeedAllAlike(t: Text, w: World, w': World, c: Case, ids: seq<Uuid>, ids': seq<Uuid>)
    requires OrderStored(w) && OrderStored(w') && |c.seeds| == |ids| == |ids'|
    ensures BothAlike(w'.clock - w.clock, SeedAll(t, w, c, ids), SeedAll(t, w', c, ids'), c.user)
  {
    var step, d := SeedsBy(t, c), w'.clock - w.clock;
    forall p: Seeded, p': Seeded, seed: Seed, id: Uuid, id': Uuid | BothAlike(d, Some(p), Some(p'), c.user)
      ensures BothAlike(d, step(p, seed, id), step(p', seed, id'), c.user)
    {
      NextSeedAlike(t, c, d, p, p', seed, id, id');
    }
    ClearedAlike(w, w', c.user);
    SeedManyAlike(step, d, c.user, Cleared(w, c.user), Cleared(w', c.user), c.seeds, ids, ids', |ids|);
  }

  /* ---------- search and verdict ---------- */

  lemma {:induction false} OwnEdges(edges: seq<Edge>, user: string, e: Edge)
    ensures e in EdgesOf(edges, user) <==> e in edges && e.user == user
  {
    if edges != [] {
      var n := |edges| - 1;
      OwnEdges(edges[..n], user, e);
      assert edges == edges[..n] + [edges[n]];
    }
  }

  lemma GraphIdsRename(t: Text, m: Renaming, d: int, w: World, w': World, user: string, q: string, x: Uuid)
    requires Alike(m, d, w, w', user) && x in m
    ensures x in GraphIds(t, w.edges, user, q) <==> m[x] in GraphIds(t, w'.edges, user, q)
  {
    var a, b := EdgesOf(w.edges, user), EdgesOf(w'.edges, user);
    if x in GraphIds(t, w.edges, user, q) {
      var e :| e in w.edges && Open(e) && e.user == user && t.lower(e.fact.entity) in t.queryEntities(q)
        && e.memoryId == x;
      OwnEdges(w.edges, user, e);
      var i :| 0 <= i < |a| && a[i] == e;
      assert SameEdge(m, d, a[i], b[i]);
      OwnEdges(w'.edges, user, b[i]);
    }
    if m[x] in GraphIds(t, w'.edges, user, q) {
      var e :| e in w'.edges && Open(e) && e.user == user && t.lower(e.fact.entity) in t.queryEntities(q)
        && e.memoryId == m[x];
      OwnEdges(w'.edges, user, e);
      var i :| 0 <= i < |b| && b[i] == e;
      assert SameEdge(m, d, a[i], b[i]);
      OwnEdges(w.edges, user, a[i]);
    }
  }

  ghost predicate SameCandidates(m: Renaming, cs: seq<Candidate>, cs': seq<Candidate>) {
    |cs| == |cs'| && forall i :: 0 <= i < |cs| ==>
      cs[i].id in m && cs'[i].id == m[cs[i].id] && cs'[i].content == cs[i].content
        && cs'[i].embedding == cs[i].embedding
  }

  lemma CandidatesRename(m: Renaming, d: int, w: World, w': World, user: string)
    requires Alike(m, d, w, w', user)
    ensures SameCandidates(m, Candidates(w, user), Candidates(w', user))
  {
    RecentRename(m, w, w', user);
    var a, b := RecentIds(w, user), RecentIds(w', user);
    forall i | 0 <= i < |a|
      ensures Candidates(w, user)[i].content == Candidates(w', user)[i].content
      ensures Candidates(w, user)[i].embedding == Candidates(w', user)[i].embedding
    {
      assert SameRow(w.rows[a[i]], w'.rows[m[a[i]]]);
    }
  }

  lemma RecentRename(m: Renaming, w: World, w': World, user: string)
    requires SameIds(m, ActiveOf(w.order, w.rows, user), ActiveOf(w'.order, w'.rows, user))
    ensures SameIds(m, RecentIds(w, user), RecentIds(w', user))
  {
    TakeRenames(m, Reversed(ActiveOf(w.order, w.rows, user)), Reversed(ActiveOf(w'.order, w'.rows, user)),
      CANDIDATE_LIMIT);
  }

  lemma RankRenames(t: Text, m: Renaming, q: string, qe: seq<real>, cs: seq<Candidate>, cs': seq<Candidate>,
                    g: set<Uuid>, g': set<Uuid>, k: nat)
    requires SameCandidates(m, cs, cs')
    requires forall x :: x in m ==> (x in g <==> m[x] in g')
    ensures SameIds(m, Ids(Rank(t, q, qe, cs, g, k)), Ids(Rank(t, q, qe, cs', g', k)))
    ensures Scores(Rank(t, q, qe, cs, g, k)) == Scores(Rank(t, q, qe, cs', g', k))
  {
    var items, items' := ScoredAll(t, q, qe, cs, g), ScoredAll(t, q, qe, cs', g');
    forall i | 0 <= i < |cs| ensures items[i].score == items'[i].score && items[i].candidate.id in m
      && items'[i].candidate.id == m[items[i].candidate.id] {
      assert SignalsOf(t, q, qe, cs[i], g) == SignalsOf(t, q, qe, cs'[i], g');
    }
    assert Scores(items) == Scores(items');
    var order := StableOrder(Scores(items), |items|);
    forall p | 0 <= p < |order| ensures order[p] < |items| { assert order[p] in order; }
  }

  lemma SearchRenames(t: Text, m: Renaming, d: int, w: World, w': World, user: string, q: string, k: int)
    requires Alike(m, d, w, w', user)
    ensures SameIds(m, Ids(Search(t, w, user, q, k)), Ids(Search(t, w', user, q, k)))
    ensures Scores(Search(t, w, user, q, k)) == Scores(Search(t, w', user, q, k))
  {
    CandidatesRename(m, d, w, w', user);
    forall x | x in m ensures x in GraphIds(t, w.edges, user, q) <==> m[x] in GraphIds(t, w'.edges, user, q) {
      GraphIdsRename(t, m, d, w, w', user, q, x);
    }
    RankRenames(t, m, q, t.embed(q), Candidates(w, user), Candidates(w', user), GraphIds(t, w.edges, user, q),
      GraphIds(t, w'.edges, user, q), ClampTopK(k));
  }

  /** The results of one case agree up to the renaming. */
  ghost predicate SameResult(m: Renaming, r: CaseResult, r': CaseResult) {
    && Injective(m)
    && r'.mode == r.mode && r'.score == r.score
    && SameIds(m, Ids(r.retrieved), Ids(r'.retrieved)) && Scores(r.retrieved) == Scores(r'.retrieved)
    && (r.expected.Some? <==> r'.expected.Some?)
    && (r.expected.Some? ==> r.expected.value in m && r'.expected.value == m[r.expected.value])
  }

  lemma ClassifyRenames(m: Renaming, e: Option<Uuid>, e': Option<Uuid>, ids: seq<Uuid>, ids': seq<Uuid>,
                        inactive: set<Uuid>, inactive': set<Uuid>, flagged: set<Uuid>, flagged': set<Uuid>)
    requires Injective(m) && SameIds(m, ids, ids')
    requires (e.Some? <==> e'.Some?) && (e.Some? ==> e.value in m && e'.value == m[e.value])
    requires forall x :: x in m ==> (x in inactive <==> m[x] in inactive') && (x in flagged <==> m[x] in flagged')
    ensures ClassifyCase(e, ids, inactive, flagged) == ClassifyCase(e', ids', inactive', flagged')
  {
  }

  lemma JudgeRenames(t: Text, c: Case, m: Renaming, d: int, s: Seeded, s': Seeded)
    requires SeededAlike(m, d, s, s', c.user)
    ensures SameResult(m, Judge(t, c, s), Judge(t, c, s'))
  {
    SearchRenames(t, m, d, s.w, s'.w, c.user, c.query, EVAL_TOP_K);
    ClassifyRenames(m, ExpectedId(c, s.labels), ExpectedId(c, s'.labels),
      Ids(Search(t, s.w, c.user, c.query, EVAL_TOP_K)), Ids(Search(t, s'.w, c.user, c.query, EVAL_TOP_K)),
      InactiveIds(s.w, c.user), InactiveIds(s'.w, c.user), s.flagged, s'.flagged);
  }

  /** Hermetic case: from any two prior states and with any ids drawn, a case that completes gives the same verdict and
      the same expected and retrieved pattern up to a renaming of ids. */
  lemma CaseIsHermetic(t: Text, c: Case, ids: seq<Uuid>, ids': seq<Uuid>, w: World, w': World) returns (m: Renaming)
    requires OrderStored(w) && OrderStored(w')
    ensures
      var x, y := RunCase(t, c, ids, w), RunCase(t, c, ids', w');
      x.Some? && y.Some? ==>
        SameResult(m, x.value.result, y.value.result) && OrderStored(x.value.seeded.w) && OrderStored(y.value.seeded.w)
  {
    var x, y := RunCase(t, c, ids, w), RunCase(t, c, ids', w');
    m := map[];
    if x.Some? && y.Some? {
      SeedAllAlike(t, w, w', c, ids, ids');
      m :| SeededAlike(m, w'.clock - w.clock, x.value.seeded, y.value.seeded, c.user);
      JudgeRenames(t, c, m, w'.clock - w.clock, x.value.seeded, y.value.seeded);
    }
  }

  /* ---------- the whole evaluation ---------- */

  lemma TakeRenames(m: Renaming, a: seq<Uuid>, b: seq<Uuid>, k: nat)
    requires SameIds(m, a, b)
    ensures SameIds(m, Take(a, k), Take(b, k))
  {
  }

  /** A case counts the same in every metric. */
  ghost predicate SameScore(r: CaseResult, r': CaseResult) {
    && r'.mode == r.mode
    && (IsHit(r.expected, Ids(r.retrieved), 5) <==> IsHit(r'.expected, Ids(r'.retrieved), 5))
    && CasePrecision(r.expected, Ids(r.retrieved)) == CasePrecision(r'.expected, Ids(r'.retrieved))
  }

  lemma SameResultSameScore(m: Renaming, r: CaseResult, r': CaseResult)
    requires SameResult(m, r, r')
    ensures SameScore(r, r')
  {
  }

  ghost predicate SameScores(rs: seq<CaseResult>, rs': seq<CaseResult>) {
    |rs| == |rs'| && forall i :: 0 <= i < |rs| ==> SameScore(rs[i], rs'[i])
  }

  /** Any two ways in which a case completes agree. */
  ghost predicate CasesAgree(run: CaseFn) {
    forall c: Case, ids: seq<Uuid>, ids': seq<Uuid>, w: World, w': World :: OrderStored(w) && OrderStored(w') ==>
      DoneAlike(run(c, ids, w), run(c, ids', w'))
  }

  ghost predicate DoneAlike(x: Option<Done>, y: Option<Done>) {
    x.Some? && y.Some? ==>
      SameScore(x.value.result, y.value.result) && OrderStored(x.value.seeded.w) && OrderStored(y.value.seeded.w)
  }

  lemma MockCasesAgree(t: Text)
    ensures CasesAgree(CasesBy(t))
  {
    forall c: Case, ids: seq<Uuid>, ids': seq<Uuid>, w: World, w': World | OrderStored(w) && OrderStored(w')
      ensures DoneAlike(CasesBy(t)(c, ids, w), CasesBy(t)(c, ids', w'))
    {
      var x, y := RunCase(t, c, ids, w), RunCase(t, c, ids', w');
      if x.Some? && y.Some? {
        var m := CaseIsHermetic(t, c, ids, ids', w, w');
        SameResultSameScore(m, x.value.result, y.value.result);
      }
    }
  }

  lemma {:induction false} EvaluationsAgree(run: CaseFn, cases: seq<Case>, ids: seq<seq<Uuid>>, ids': seq<seq<Uuid>>,
                                            w: World, w': World, ds: seq<Done>, ds': seq<Done>, i: nat)
    requires CasesAgree(run) && Drawn(cases, ids) && Drawn(cases, ids') && OrderStored(w) && OrderStored(w')
    requires Evaluates(run, cases, ids, w, ds) && Evaluates(run, cases, ids', w', ds') && i < |ds| == |ds'|
    ensures SameScore(ds[i].result, ds'[i].result) && OrderStored(ds[i].seeded.w) && OrderStored(ds'[i].seeded.w)
  {
    if i > 0 { EvaluationsAgree(run, cases, ids, ids', w, w', ds, ds', i - 1); }
    assert DoneAlike(run(cases[i], ids[i], WorldBefore(w, ds, i)), run(cases[i], ids'[i], WorldBefore(w', ds', i)));
  }

  lemma {:induction false} SameHits(e: seq<Expected>, r: seq<seq<Uuid>>, e': seq<Expected>, r': seq<seq<Uuid>>, k: nat)
    requires |e| == |r| == |e'| == |r'|
    requires forall i :: 0 <= i < |e| ==> (IsHit(e[i], r[i], k) <==> IsHit(e'[i], r'[i], k))
    ensures Hits(e, r, k) == Hits(e', r', k)
  {
    if e != [] { SameHits(e[1..], r[1..], e'[1..], r'[1..], k); }
  }

  /** The quality metrics of a run; `None` would be a division by zero, which equal lengths rule out. */
  function Quality(rs: seq<CaseResult>): Option<(real, real, real, real)> {
    var precision := Precision(ExpectedIds(rs), RetrievedIds(rs));
    if precision.None? then None
    else Some((Recall(ExpectedIds(rs), RetrievedIds(rs), 5), precision.value, Rate(Modes(rs), StaleFact),
      Rate(Modes(rs), FalseFact)))
  }

  lemma SameScoresSameQuality(rs: seq<CaseResult>, rs': seq<CaseResult>)
    requires SameScores(rs, rs')
    ensures Quality(rs) == Quality(rs')
  {
    var e, r, e', r' := ExpectedIds(rs), RetrievedIds(rs), ExpectedIds(rs'), RetrievedIds(rs');
    forall i | 0 <= i < |rs| ensures IsHit(e[i], r[i], 5) <==> IsHit(e'[i], r'[i], 5)
      ensures CasePrecision(e[i], r[i]) == CasePrecision(e'[i], r'[i]) && rs[i].mode == rs'[i].mode
    {
      assert SameScore(rs[i], rs'[i]);
    }
    SameHits(e, r, e', r', 5);
    assert CaseScores(e, r) == CaseScores(e', r');
    assert Modes(rs) == Modes(rs');
  }

  /** Hermetic evaluation: two evaluations of the same cases, from any prior contents of the stores and with any ids
      drawn, score every case alike, so recall, precision, staleness and false-fact rate agree. */
  lemma EvaluationIsHermetic(t: Text, cases: seq<Case>, ids: seq<seq<Uuid>>, ids': seq<seq<Uuid>>, w: World, w': World,
                             ds: seq<Done>, ds': seq<Done>)
    requires Drawn(cases, ids) && Drawn(cases, ids') && |ds| == |ds'| && OrderStored(w) && OrderStored(w')
    requires Evaluates(CasesBy(t), cases, ids, w, ds) && Evaluates(CasesBy(t), cases, ids', w', ds')
    ensures SameScores(Results(ds), Results(ds')) && Quality(Results(ds)) == Quality(Results(ds'))
  {
    MockCasesAgree(t);
    forall i | 0 <= i < |ds| ensures SameScore(ds[i].result, ds'[i].result) {
      EvaluationsAgree(CasesBy(t), cases, ids, ids', w, w', ds, ds', i);
    }
    SameScoresSameQuality(Results(ds), Results(ds'));
  }
}
