/** What clearing a namespace leaves: everything of the other users, and nothing that a second clearing would not
    remove. */
module Clearing {
  import opened Domain
  import opened Stores
  import opened GraphClient
  import opened Conservation
  import opened Frame
  import opened Runner

  lemma {:induction false} KeptIds(order: seq<Uuid>, gone: set<Uuid>, id: Uuid)
    ensures multiset(KeepOthers(order, gone))[id] == if id in gone then 0 else multiset(order)[id]
  {
    if order != [] {
      var n := |order| - 1;
      assert order == order[..n] + [order[n]];
      KeptIds(order[..n], gone, id);
    }
  }

  predicate Concerned(e: Event, gone: set<Uuid>) { e.memoryId.Some? && e.memoryId.value in gone }

  lemma {:induction false} KeptEvents(events: seq<Event>, gone: set<Uuid>, e: Event)
    ensures multiset(KeepEvents(events, gone))[e] == if Concerned(e, gone) then 0 else multiset(events)[e]
  {
    if events != [] {
      var n := |events| - 1;
      assert events == events[..n] + [events[n]];
      KeptEvents(events[..n], gone, e);
    }
  }

  /** What is kept keeps its order. */
  lemma {:induction false} KeptInOrder(a: seq<Event>, b: seq<Event>, gone: set<Uuid>)
    ensures KeepEvents(a + b, gone) == KeepEvents(a, gone) + KeepEvents(b, gone)
  {
    if b == [] {
      assert a + b == a;
    } else {
      var n := |b| - 1;
      assert (a + b)[..|a| + n] == a + b[..n];
      KeptInOrder(a, b[..n], gone);
    }
  }

  lemma {:induction false} OthersActive(order: seq<Uuid>, rows: map<Uuid, Row>, gone: set<Uuid>, user: string)
    requires forall id :: id in gone && id in rows ==> rows[id].user != user
    ensures ActiveOf(KeepOthers(order, gone), rows - gone, user) == ActiveOf(order, rows, user)
  {
    if order != [] {
      var n := |order| - 1;
      var front, x := KeepOthers(order[..n], gone), order[n];
      OthersActive(order[..n], rows, gone, user);
      if x in gone {
        assert KeepOthers(order, gone) == front;
      } else {
        assert KeepOthers(order, gone) == front + [x];
        ActivePush(front, x, rows - gone, user);
        assert ActiveFor(rows - gone, x, user) <==> ActiveFor(rows, x, user);
      }
    }
  }

  /** Clearing removes the user's rows, the events about them and the user's edges, and nothing else. */
  lemma ClearKeepsTheRest(w: World, user: string, id: Uuid, event: Event, edge: Edge)
    ensures ClearUser(w, user).rows == w.rows - RowIds(w, user) && ClearUser(w, user).clock == w.clock
    ensures multiset(ClearUser(w, user).order)[id] == if id in RowIds(w, user) then 0 else multiset(w.order)[id]
    ensures multiset(ClearUser(w, user).events)[event]
      == if Concerned(event, RowIds(w, user)) then 0 else multiset(w.events)[event]
    ensures multiset(ClearUser(w, user).edges)[edge] == if edge.user == user then 0 else multiset(w.edges)[edge]
  {
    var w', gone := ClearUser(w, user), RowIds(w, user);
    ClearParts(w, user);
    KeptIds(w.order, gone, id);
    KeptEvents(w.events, gone, event);
    KeptEdgeCount(w.edges, user, edge);
    assert multiset(w'.order)[id] == if id in gone then 0 else multiset(w.order)[id];
    assert multiset(w'.events)[event] == if Concerned(event, gone) then 0 else multiset(w.events)[event];
  }

  lemma {:induction false} NothingGone(order: seq<Uuid>, events: seq<Event>)
    ensures KeepOthers(order, {}) == order && KeepEvents(events, {}) == events
    decreases |order| + |events|
  {
    if order != [] {
      NothingGone(order[..|order| - 1], events);
      assert order == order[..|order| - 1] + [order[|order| - 1]];
    } else if events != [] {
      NothingGone(order, events[..|events| - 1]);
      assert events == events[..|events| - 1] + [events[|events| - 1]];
    }
  }

  lemma ClearParts(w: World, user: string)
    ensures
      var w', gone := ClearUser(w, user), RowIds(w, user);
      && w'.rows == w.rows - gone && w'.clock == w.clock && w'.edges == DropEdges(w.edges, user)
      && w'.order == KeepOthers(w.order, gone) && w'.events == KeepEvents(w.events, gone)
  {
    NothingGone(w.order, w.events);
  }

  lemma {:induction false} KeptEdgeCount(edges: seq<Edge>, user: string, e: Edge)
    ensures multiset(DropEdges(edges, user))[e] == if e.user == user then 0 else multiset(edges)[e]
  {
    if edges != [] {
      var n := |edges| - 1;
      assert edges == edges[..n] + [edges[n]];
      KeptEdgeCount(edges[..n], user, e);
    }
  }

  /** A clearing ends, or stops, at one of three points. */
  lemma ClearOutcomes(w: World, user: string, f: ClearFaults)
    ensures var w' := ClearStep(w, user, f).0; w' == w || w' == ClearRows(w, user) || w' == ClearUser(w, user)
  {
    DropTimes(ClearRows(w, user).edges, user, Copies(f.facts));
  }

  /** A clearing returns exactly when every write it needed succeeded; a failed commit leaves the graph alone, and so
      does a failure of the first graph delete. */
  lemma ClearReturnsIff(w: World, user: string, f: ClearFaults)
    ensures
      var (w', ok) := ClearStep(w, user, f);
      var committed := (exists id :: id in w.rows && w.rows[id].user == user) ==> f.commit == Succeeds;
      && (ok <==> committed && Ok(f.owned) && Ok(f.facts))
      && (ok ==> w' == ClearUser(w, user))
      && (!committed && f.commit == FailsBefore ==> w' == w)
      && (committed || f.commit == FailsAfter ==> forall id :: id in w'.rows ==> w'.rows[id].user != user)
      && (!committed || !Ok(f.owned) ==> w'.edges == w.edges)
  {
    assert RowIds(w, user) != {} <==> exists id :: id in w.rows && w.rows[id].user == user by {
      assert forall id :: id in RowIds(w, user) <==> id in w.rows && w.rows[id].user == user;
    }
    DropTimes(w.edges, user, Copies(f.facts));
  }

  lemma RowsClearedView(w: World, user: string, other: string)
    requires other != user
    ensures SameView(w, ClearRows(w, user), other)
  {
    OthersActive(w.order, w.rows, RowIds(w, user), other);
  }

  lemma EdgesDroppedView(w: World, user: string, other: string)
    requires other != user
    ensures SameView(w, w.(edges := DropEdges(w.edges, user)), other)
  {
  }

  /** Whatever stops a clearing, no other user can tell. */
  lemma ClearingIsLocal(t: Text, w: World, user: string, f: ClearFaults, other: string, q: string, topK: int)
    requires other != user
    ensures Search(t, ClearStep(w, user, f).0, other, q, topK) == Search(t, w, other, q, topK)
  {
    ClearOutcomes(w, user, f);
    RowsClearedView(w, user, other);
    SameViewSameSearch(t, w, ClearRows(w, user), other, q, topK);
    EdgesDroppedView(ClearRows(w, user), user, other);
    SameViewSameSearch(t, ClearRows(w, user), ClearUser(w, user), other, q, topK);
  }

  lemma ClearedRowsStay(w: World, user: string)
    ensures RowIds(ClearRows(w, user), user) == {} && RowIds(ClearUser(w, user), user) == {}
  {
  }

  lemma ClearTwice(w: World, user: string)
    ensures ClearUser(ClearRows(w, user), user) == ClearUser(w, user)
    ensures ClearUser(ClearUser(w, user), user) == ClearUser(w, user)
  {
    ClearedRowsStay(w, user);
    KeptEdges(DropEdges(w.edges, user), user);
  }

  /** A clearing that stopped anywhere is made good by the next one. */
  lemma ClearingIsRepeatable(w: World, user: string, f: ClearFaults)
    ensures ClearUser(ClearStep(w, user, f).0, user) == ClearUser(w, user)
  {
    ClearOutcomes(w, user, f);
    ClearTwice(w, user);
  }
}
