/** An operation for one user leaves every other user's search results unchanged. */
module Frame {
  import opened Domain
  import opened Stores
  import opened GraphClient
  import opened MockBackend
  import opened CrashSafety
  import opened Conservation

  /** What `search` can see of a user's data is the same in both states. */
  ghost predicate SameView(w: World, w': World, user: string) {
    && ActiveOf(w'.order, w'.rows, user) == ActiveOf(w.order, w.rows, user)
    && (forall id :: ActiveFor(w.rows, id, user) ==> id in w'.rows && w'.rows[id] == w.rows[id])
    && (forall e :: Open(e) && e.user == user ==> (e in w.edges <==> e in w'.edges))
  }

  lemma SameViewSameSearch(t: Text, w: World, w': World, user: string, q: string, topK: int)
    requires SameView(w, w', user)
    ensures Search(t, w', user, q, topK) == Search(t, w, user, q, topK)
  {
    assert GraphIds(t, w'.edges, user, q) == GraphIds(t, w.edges, user, q);
    assert RecentIds(w', user) == RecentIds(w, user);
    assert Candidates(w', user) == Candidates(w, user);
  }

  /** Whose data an operation may change. */
  predicate Touches(w: World, op: Op, user: string) {
    match op
    case Add(r, _) => r.user == user
    case Delete(id, _) => id in w.rows && w.rows[id].user == user
  }

  lemma CloseKeepsOthers(t: Text, w: World, edges: seq<Edge>, id: Uuid, at: int, n: nat, e: Edge)
    requires forall d :: d in edges ==> Faithful(t, w.rows, d)
    requires Open(e) && id in w.rows && w.rows[id].user != e.user
    ensures e in ApplyTimes(edges, CloseFact(id, at), n) <==> e in edges
  {
  }

  lemma StoreEdgesFrame(t: Text, w: World, r: AddRequest, fact: Fact, now: int, f: Faults, e: Edge)
    requires AllFaithful(t, w) && r.user != e.user && Open(e)
    ensures e in StoreStep(t, w, r, fact, now, f).0.edges <==> e in w.edges
  {
    var displaced := Displaced(w.edges, r.user, fact);
    if displaced.Some? {
      assert Faithful(t, w.rows, FindActive(w.edges, r.user, fact.entity, fact.relation).value);
      CloseKeepsOthers(t, w, w.edges, displaced.value, now, Copies(f.close), e);
    }
    CreateTimes(AfterClose(w, displaced, now, f.close).edges, NewEdge(r, fact, now), Copies(f.link));
  }

  lemma StoreFrame(t: Text, w: World, torn: set<Uuid>, r: AddRequest, fact: Fact, now: int, f: Faults, user: string)
    requires Safe(t, w, torn) && r.user != user
    ensures SameView(w, StoreStep(t, w, r, fact, now, f).0, user)
  {
    var displaced := Displaced(w.edges, r.user, fact);
    if displaced.Some? {
      assert Faithful(t, w.rows, FindActive(w.edges, r.user, fact.entity, fact.relation).value);
    }
    StoreRows(t, w, r, fact, now, f);
    if Commits(t, w, r, fact, f) {
      var rows' := CommitAdd(w, r.id, NewRow(t, r, now), displaced).rows;
      ActiveFrame(w.order, w.rows, rows', user);
      ActivePush(w.order, r.id, rows', user);
    }
    forall e | Open(e) && e.user == user ensures e in w.edges <==> e in StoreStep(t, w, r, fact, now, f).0.edges {
      StoreEdgesFrame(t, w, r, fact, now, f, e);
    }
  }

  lemma DeleteFrame(t: Text, w: World, torn: set<Uuid>, id: Uuid, f: Faults, user: string)
    requires Safe(t, w, torn) && !Touches(w, Delete(id, f), user)
    ensures SameView(w, DeleteStep(w, id, f).0, user)
  {
    var w' := DeleteStep(w, id, f).0;
    if id in w.rows && w.rows[id].active {
      ActiveFrame(w.order, w.rows, CommitDelete(w, id).rows, user);
      forall e | Open(e) && e.user == user ensures e in w.edges <==> e in w'.edges {
        CloseKeepsOthers(t, w, w.edges, id, w.clock, Copies(f.close), e);
      }
    }
  }

  lemma OtherUsersView(t: Text, w: World, torn: set<Uuid>, op: Op, user: string)
    requires Safe(t, w, torn) && !Touches(w, op, user)
    ensures SameView(w, Step(t, w, op), user)
  {
    match op
    case Add(r, f) =>
      if FactOf(t, r).Some? {
        ForwardTick(w);
        StoreFrame(t, Tick(w), torn, r, FactOf(t, r).value, w.clock, f, user);
      }
    case Delete(id, f) =>
      DeleteFrame(t, w, torn, id, f, user);
  }

  /** The frame of one operation in any reachable state, failures included. */
  lemma OtherUsersSearchUnchanged(t: Text, w: World, torn: set<Uuid>, op: Op, user: string, q: string, topK: int)
    requires Safe(t, w, torn) && !Touches(w, op, user)
    ensures Search(t, Step(t, w, op), user, q, topK) == Search(t, w, user, q, topK)
  {
    OtherUsersView(t, w, torn, op, user);
    SameViewSameSearch(t, w, Step(t, w, op), user, q, topK);
  }
}
