/** What every sequential history keeps, however its store writes fail or are retried. */
module CrashSafety {
  import opened Domain
  import opened Stores
  import opened GraphClient
  import opened MockBackend

  /** Bookkeeping of the row table: distinct ids in commit order, which is also creation order. */
  ghost predicate WellFormed(w: World) {
    && (forall i, j :: 0 <= i < j < |w.order| ==> w.order[i] != w.order[j])
    && (forall id :: id in w.order <==> id in w.rows)
    && (forall i, j :: 0 <= i < j < |w.order| ==> w.rows[w.order[i]].createdAt < w.rows[w.order[j]].createdAt)
    && (forall id :: id in w.rows ==> w.rows[id].createdAt < w.clock)
  }

  /** An edge, open or closed, names an existing row of its own user whose content states its fact. */
  ghost predicate Faithful(t: Text, rows: map<Uuid, Row>, e: Edge) {
    && e.memoryId in rows
    && rows[e.memoryId].user == e.user
    && t.extract(rows[e.memoryId].content) == Some(e.fact)
    && rows[e.memoryId].createdAt == e.validFrom
  }

  ghost predicate AllFaithful(t: Text, w: World) {
    forall e :: e in w.edges ==> Faithful(t, w.rows, e)
  }

  /** A superseded row is inactive and points to a strictly newer row of the same user. */
  ghost predicate Forward(rows: map<Uuid, Row>, id: Uuid)
    requires id in rows
  {
    rows[id].supersededBy.Some? ==>
      && !rows[id].active
      && rows[id].supersededBy.value in rows
      && rows[rows[id].supersededBy.value].user == rows[id].user
      && rows[id].createdAt < rows[rows[id].supersededBy.value].createdAt
  }

  ghost predicate AllForward(w: World) {
    forall id :: id in w.rows ==> Forward(w.rows, id)
  }

  /** A superseded row has no open edge. */
  ghost predicate SupersededClosed(w: World) {
    forall e :: e in w.edges && Open(e) && e.memoryId in w.rows ==> w.rows[e.memoryId].supersededBy.None?
  }

  /** An inactive row with an open edge is one of `torn`. */
  ghost predicate OnlyTorn(w: World, torn: set<Uuid>) {
    forall e :: e in w.edges && Open(e) && e.memoryId in w.rows && !w.rows[e.memoryId].active ==> e.memoryId in torn
  }

  ghost predicate Safe(t: Text, w: World, torn: set<Uuid>) {
    WellFormed(w) && AllFaithful(t, w) && AllForward(w) && SupersededClosed(w) && OnlyTorn(w, torn)
  }

  /** The rows whose delete stopped between its Postgres commit and its graph close. */
  function TornBy(w: World, op: Op): set<Uuid> {
    if op.Delete? && op.id in w.rows && w.rows[op.id].active && TakesEffect(op.faults.commit)
       && (op.faults.commit != Succeeds || Copies(op.faults.close) == 0)
    then {op.id} else {}
  }

  function Torn(t: Text, ops: seq<Op>): set<Uuid> {
    if ops == [] then {}
    else
      var n := |ops| - 1;
      Torn(t, ops[..n]) + TornBy(Run(t, ops[..n]), ops[n])
  }

  lemma {:induction false} CloseTimes(edges: seq<Edge>, id: Uuid, at: int, n: nat)
    ensures ApplyTimes(edges, CloseFact(id, at), n) == if n == 0 then edges else CloseEdges(edges, id, at)
  {
    if n != 0 {
      CloseTimes(edges, id, at, n - 1);
    }
  }

  lemma {:induction false} CreateTimes(edges: seq<Edge>, e: Edge, n: nat)
    ensures edges <= ApplyTimes(edges, CreateFact(e), n)
    ensures |ApplyTimes(edges, CreateFact(e), n)| == |edges| + n
    ensures forall x :: x in ApplyTimes(edges, CreateFact(e), n) <==> x in edges || (n > 0 && x == e)
  {
    if n != 0 {
      CreateTimes(edges, e, n - 1);
    }
  }

  lemma CloseOrigin(edges: seq<Edge>, id: Uuid, at: int, e: Edge) returns (d: Edge)
    requires e in CloseEdges(edges, id, at)
    ensures d in edges && e == Closed(d, id, at)
  {
    var i :| 0 <= i < |edges| && CloseEdges(edges, id, at)[i] == e;
    d := edges[i];
  }

  lemma ClosedSafe(t: Text, w: World, torn: set<Uuid>, id: Uuid, at: int, n: nat)
    requires Safe(t, w, torn)
    ensures Safe(t, WithEdges(w, CloseFact(id, at), n), torn)
    ensures n > 0 ==> forall e :: e in WithEdges(w, CloseFact(id, at), n).edges && Open(e) ==> e.memoryId != id
  {
    CloseTimes(w.edges, id, at, n);
    var w' := WithEdges(w, CloseFact(id, at), n);
    if n > 0 {
      forall e | e in w'.edges
        ensures Faithful(t, w.rows, e)
        ensures Open(e) ==> e in w.edges && e.memoryId != id
      {
        var d := CloseOrigin(w.edges, id, at, e);
        assert Faithful(t, w.rows, d);
      }
    }
    assert AllForward(w');
  }

  lemma CommittedWellFormed(w: World, id: Uuid, row: Row, displaced: Option<Uuid>)
    requires WellFormed(w) && id !in w.rows && row.createdAt < w.clock
    requires forall x :: x in w.rows ==> w.rows[x].createdAt < row.createdAt
    ensures WellFormed(CommitAdd(w, id, row, displaced))
  {
    var w' := CommitAdd(w, id, row, displaced);
    forall i, j | 0 <= i < j < |w'.order|
      ensures w'.order[i] != w'.order[j] && w'.rows[w'.order[i]].createdAt < w'.rows[w'.order[j]].createdAt
    {
      assert w.order[i] in w.order;
      assert j < |w.order| ==> w.order[j] in w.order;
    }
  }

  lemma CommittedForward(w: World, id: Uuid, row: Row, displaced: Option<Uuid>)
    requires AllForward(w) && id !in w.rows && row.supersededBy.None?
    requires forall x :: x in w.rows ==> w.rows[x].createdAt < row.createdAt
    requires displaced.Some? && displaced.value in w.rows ==> w.rows[displaced.value].user == row.user
    ensures AllForward(CommitAdd(w, id, row, displaced))
  {
  }

  lemma CommittedSafe(t: Text, w: World, torn: set<Uuid>, id: Uuid, row: Row, displaced: Option<Uuid>)
    requires Safe(t, w, torn) && id !in w.rows
    requires row.active && row.supersededBy.None? && row.createdAt < w.clock
    requires forall x :: x in w.rows ==> w.rows[x].createdAt < row.createdAt
    requires displaced.Some? ==> displaced.value in w.rows && w.rows[displaced.value].user == row.user
    requires displaced.Some? ==> forall e :: e in w.edges && Open(e) ==> e.memoryId != displaced.value
    ensures Safe(t, CommitAdd(w, id, row, displaced), torn)
  {
    CommittedWellFormed(w, id, row, displaced);
    CommittedForward(w, id, row, displaced);
    var w' := CommitAdd(w, id, row, displaced);
    forall e | e in w'.edges ensures Faithful(t, w'.rows, e) && e.memoryId != id {
      assert Faithful(t, w.rows, e);
    }
  }

  lemma LinkedSafe(t: Text, w: World, torn: set<Uuid>, e: Edge, n: nat)
    requires Safe(t, w, torn) && Faithful(t, w.rows, e)
    requires w.rows[e.memoryId].active && w.rows[e.memoryId].supersededBy.None?
    ensures Safe(t, WithEdges(w, CreateFact(e), n), torn)
  {
    CreateTimes(w.edges, e, n);
  }

  lemma DisplacedKnown(t: Text, w: World, user: string, fact: Fact)
    requires AllFaithful(t, w)
    ensures
      var displaced := Displaced(w.edges, user, fact);
      displaced.Some? ==> displaced.value in w.rows && w.rows[displaced.value].user == user
  {
  }

  lemma CloseStepSafe(t: Text, w: World, torn: set<Uuid>, displaced: Option<Uuid>, now: int, a: Attempts)
    requires Safe(t, w, torn)
    ensures
      var w1 := AfterClose(w, displaced, now, a);
      && Safe(t, w1, torn) && w1 == w.(edges := w1.edges)
      && (displaced.Some? && Ok(a) ==> forall e :: e in w1.edges && Open(e) ==> e.memoryId != displaced.value)
  {
    if displaced.Some? {
      ClosedSafe(t, w, torn, displaced.value, now, Copies(a));
    }
  }

  lemma CommitLinkSafe(t: Text, w: World, torn: set<Uuid>, r: AddRequest, fact: Fact, now: int,
                       displaced: Option<Uuid>, n: nat)
    requires Safe(t, w, torn) && now < w.clock && r.id !in w.rows && FactOf(t, r) == Some(fact)
    requires forall x :: x in w.rows ==> w.rows[x].createdAt < now
    requires displaced.Some? ==> displaced.value in w.rows && w.rows[displaced.value].user == r.user
    requires displaced.Some? ==> forall e :: e in w.edges && Open(e) ==> e.memoryId != displaced.value
    ensures
      var w' := CommitAdd(w, r.id, NewRow(t, r, now), displaced);
      Safe(t, w', torn) && Safe(t, WithEdges(w', CreateFact(NewEdge(r, fact, now)), n), torn)
  {
    CommittedSafe(t, w, torn, r.id, NewRow(t, r, now), displaced);
    LinkedSafe(t, CommitAdd(w, r.id, NewRow(t, r, now), displaced), torn, NewEdge(r, fact, now), n);
  }

  lemma StoreSafe(t: Text, w: World, torn: set<Uuid>, r: AddRequest, fact: Fact, now: int, f: Faults)
    requires Safe(t, w, torn) && now < w.clock
    requires forall x :: x in w.rows ==> w.rows[x].createdAt < now
    requires FactOf(t, r) == Some(fact)
    ensures Safe(t, StoreStep(t, w, r, fact, now, f).0, torn)
  {
    var displaced := Displaced(w.edges, r.user, fact);
    DisplacedKnown(t, w, r.user, fact);
    CloseStepSafe(t, w, torn, displaced, now, f.close);
    if r.id !in w.rows && (displaced.Some? ==> Ok(f.close)) {
      CommitLinkSafe(t, AfterClose(w, displaced, now, f.close), torn, r, fact, now, displaced, Copies(f.link));
    }
  }

  lemma RetiredSafe(t: Text, w: World, torn: set<Uuid>, id: Uuid)
    requires Safe(t, w, torn) && id in w.rows
    ensures Safe(t, CommitDelete(w, id), torn + {id})
  {
    var w1 := CommitDelete(w, id);
    forall x | x in w1.rows ensures Forward(w1.rows, x) {
      assert Forward(w.rows, x);
    }
    forall e | e in w1.edges ensures Faithful(t, w1.rows, e) {
      assert Faithful(t, w.rows, e);
    }
  }

  /** Once its edges are closed a row is torn no more. */
  lemma ClosedNotTorn(t: Text, w: World, torn: set<Uuid>, id: Uuid, at: int, n: nat)
    requires Safe(t, w, torn + {id}) && n > 0
    ensures Safe(t, WithEdges(w, CloseFact(id, at), n), torn)
  {
    ClosedSafe(t, w, torn + {id}, id, at, n);
  }

  lemma TickedSafe(t: Text, w: World, torn: set<Uuid>)
    requires Safe(t, w, torn)
    ensures Safe(t, Tick(w), torn)
  {
  }

  lemma DeleteSafe(t: Text, w: World, torn: set<Uuid>, id: Uuid, f: Faults)
    requires Safe(t, w, torn)
    ensures Safe(t, DeleteStep(w, id, f).0, torn + TornBy(w, Delete(id, f)))
  {
    TickedSafe(t, w, torn);
    if id in w.rows && w.rows[id].active && TakesEffect(f.commit) {
      var w1 := CommitDelete(Tick(w), id);
      RetiredSafe(t, Tick(w), torn, id);
      if f.commit == Succeeds {
        if Copies(f.close) > 0 {
          ClosedNotTorn(t, w1, torn, id, w.clock, Copies(f.close));
          assert torn + TornBy(w, Delete(id, f)) == torn;
        } else {
          CloseTimes(w1.edges, id, w.clock, 0);
        }
      }
    } else {
      assert torn + TornBy(w, Delete(id, f)) == torn;
    }
  }

  lemma StepSafe(t: Text, w: World, torn: set<Uuid>, op: Op)
    requires Safe(t, w, torn)
    ensures Safe(t, Step(t, w, op), torn + TornBy(w, op))
  {
    match op
    case Add(r, f) =>
      TickedSafe(t, w, torn);
      assert torn + TornBy(w, op) == torn;
      var fact := FactOf(t, r);
      if fact.Some? {
        StoreSafe(t, Tick(w), torn, r, fact.value, w.clock, f);
      } else {
        var w' := Step(t, w, op);
        forall x | x in w'.rows ensures Forward(w'.rows, x) {
          assert Forward(w.rows, x);
        }
      }
    case Delete(id, f) =>
      DeleteSafe(t, w, torn, id, f);
  }

  lemma ForwardTick(w: World)
    requires AllForward(w)
    ensures AllForward(Tick(w))
  {
  }

  /** Crash safety over every sequential history. */
  lemma {:induction false} RunIsSafe(t: Text, ops: seq<Op>)
    ensures Safe(t, Run(t, ops), Torn(t, ops))
  {
    if ops != [] {
      var n := |ops| - 1;
      RunIsSafe(t, ops[..n]);
      StepSafe(t, Run(t, ops[..n]), Torn(t, ops[..n]), ops[n]);
    }
  }
}
