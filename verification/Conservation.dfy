/** Each user's active rows are what the audit log says was added and not deleted. */
module Conservation {
  import opened Domain
  import opened Stores
  import opened GraphClient
  import opened MockBackend
  import opened CrashSafety
  import opened Coupling

  predicate Concerns(e: Event, rows: map<Uuid, Row>, kind: EventKind, user: string) {
    e.kind == kind && e.memoryId.Some? && e.memoryId.value in rows && rows[e.memoryId.value].user == user
  }

  function CountEvents(events: seq<Event>, rows: map<Uuid, Row>, kind: EventKind, user: string): nat {
    if events == [] then 0
    else
      var n := |events| - 1;
      CountEvents(events[..n], rows, kind, user) + if Concerns(events[n], rows, kind, user) then 1 else 0
  }

  function ActiveCount(w: World, user: string): nat { |ActiveOf(w.order, w.rows, user)| }

  /** 1 when the operation commits an UPDATE whose displaced row was already inactive. */
  function ExcessBy(t: Text, w: World, op: Op, user: string): nat {
    if op.Add? && FactOf(t, op.request).Some? && op.request.id !in w.rows && op.request.user == user then
      var displaced := Displaced(w.edges, op.request.user, FactOf(t, op.request).value);
      if displaced.Some? && displaced.value in w.rows && !w.rows[displaced.value].active
         && Ok(op.faults.close) && TakesEffect(op.faults.commit) then 1 else 0
    else 0
  }

  function Excess(t: Text, ops: seq<Op>, user: string): nat {
    if ops == [] then 0
    else
      var n := |ops| - 1;
      Excess(t, ops[..n], user) + ExcessBy(t, Run(t, ops[..n]), ops[n], user)
  }

  ghost predicate EventsKnown(w: World) {
    forall e :: e in w.events && e.memoryId.Some? ==> e.memoryId.value in w.rows
  }

  ghost predicate Balanced(w: World, user: string, excess: nat) {
    ActiveCount(w, user) + CountEvents(w.events, w.rows, Deleted, user)
      == CountEvents(w.events, w.rows, Added, user) + excess
  }

  lemma {:induction false} CountFrame(events: seq<Event>, rows: map<Uuid, Row>, rows': map<Uuid, Row>, kind: EventKind,
                                      user: string)
    requires forall e :: e in events && e.memoryId.Some? ==> e.memoryId.value in rows
    requires forall id :: id in rows ==> id in rows' && rows'[id].user == rows[id].user
    ensures CountEvents(events, rows', kind, user) == CountEvents(events, rows, kind, user)
  {
    if events != [] {
      var n := |events| - 1;
      CountFrame(events[..n], rows, rows', kind, user);
      assert events[n] in events;
    }
  }

  lemma CountPush(events: seq<Event>, e: Event, rows: map<Uuid, Row>, kind: EventKind, user: string)
    ensures CountEvents(events + [e], rows, kind, user)
      == CountEvents(events, rows, kind, user) + if Concerns(e, rows, kind, user) then 1 else 0
  {
  }

  lemma {:induction false} ActiveFrame(order: seq<Uuid>, rows: map<Uuid, Row>, rows': map<Uuid, Row>, user: string)
    requires forall id :: id in order ==> (ActiveFor(rows, id, user) <==> ActiveFor(rows', id, user))
    ensures ActiveOf(order, rows', user) == ActiveOf(order, rows, user)
  {
    if order != [] {
      var n := |order| - 1;
      ActiveFrame(order[..n], rows, rows', user);
      assert order[n] in order;
    }
  }

  lemma {:induction false} ActiveFlip(order: seq<Uuid>, rows: map<Uuid, Row>, rows': map<Uuid, Row>, user: string,
                                      id: Uuid)
    requires forall i, j :: 0 <= i < j < |order| ==> order[i] != order[j]
    requires id in order && ActiveFor(rows, id, user) && !ActiveFor(rows', id, user)
    requires forall x :: x in order && x != id ==> (ActiveFor(rows, x, user) <==> ActiveFor(rows', x, user))
    ensures |ActiveOf(order, rows', user)| == |ActiveOf(order, rows, user)| - 1
  {
    var n := |order| - 1;
    var front := order[..n];
    assert order == front + [order[n]];
    if order[n] == id {
      assert forall x :: x in front ==> x != id;
      ActiveFrame(front, rows, rows', user);
    } else {
      assert id in front;
      ActiveFlip(front, rows, rows', user, id);
    }
  }

  lemma ActivePush(order: seq<Uuid>, id: Uuid, rows: map<Uuid, Row>, user: string)
    ensures ActiveOf(order + [id], rows, user)
      == ActiveOf(order, rows, user) + if ActiveFor(rows, id, user) then [id] else []
  {
  }

  lemma RetiredActive(w: World, rows: map<Uuid, Row>, displaced: Option<Uuid>, id: Uuid, user: string)
    requires WellFormed(w) && id !in w.rows
    requires forall x :: x in w.rows ==> x in rows && rows[x].user == w.rows[x].user
    requires forall x :: x in w.rows ==> rows[x].active == (w.rows[x].active && displaced != Some(x))
    ensures |ActiveOf(w.order, rows, user)|
      + (if displaced.Some? && ActiveFor(w.rows, displaced.value, user) then 1 else 0)
      == |ActiveOf(w.order, w.rows, user)|
  {
    if displaced.Some? && ActiveFor(w.rows, displaced.value, user) {
      ActiveFlip(w.order, w.rows, rows, user, displaced.value);
    } else {
      ActiveFrame(w.order, w.rows, rows, user);
    }
  }

  lemma CommitRows(w: World, id: Uuid, row: Row, displaced: Option<Uuid>)
    requires id !in w.rows && (displaced.Some? ==> displaced.value in w.rows)
    ensures
      var rows := CommitAdd(w, id, row, displaced).rows;
      && (forall x :: x in w.rows ==> x in rows && rows[x].user == w.rows[x].user)
      && (forall x :: x in w.rows ==> rows[x].active == (w.rows[x].active && displaced != Some(x)))
      && id in rows && rows[id] == row
  {
  }

  /** The rows after a commit: the displaced row is retired, the new one added. */
  lemma CommitActive(w: World, id: Uuid, row: Row, displaced: Option<Uuid>, user: string)
    requires WellFormed(w) && id !in w.rows && row.active
    requires displaced.Some? ==> displaced.value in w.rows
    ensures
      ActiveCount(CommitAdd(w, id, row, displaced), user)
      + (if displaced.Some? && ActiveFor(w.rows, displaced.value, user) then 1 else 0)
        == ActiveCount(w, user) + if row.user == user then 1 else 0
  {
    var rows := CommitAdd(w, id, row, displaced).rows;
    CommitRows(w, id, row, displaced);
    ActivePush(w.order, id, rows, user);
    RetiredActive(w, rows, displaced, id, user);
  }

  lemma CommitBalance(w: World, id: Uuid, row: Row, displaced: Option<Uuid>, user: string, excess: nat)
    requires WellFormed(w) && EventsKnown(w) && Balanced(w, user, excess) && id !in w.rows && row.active
    requires displaced.Some? ==> displaced.value in w.rows && w.rows[displaced.value].user == row.user
    ensures EventsKnown(CommitAdd(w, id, row, displaced))
    ensures Balanced(CommitAdd(w, id, row, displaced), user,
      excess + if displaced.Some? && row.user == user && !w.rows[displaced.value].active then 1 else 0)
  {
    var w' := CommitAdd(w, id, row, displaced);
    CommitActive(w, id, row, displaced, user);
    var e := AddEvent(w, id, row, displaced);
    CountFrame(w.events, w.rows, w'.rows, Added, user);
    CountFrame(w.events, w.rows, w'.rows, Deleted, user);
    CountPush(w.events, e, w'.rows, Added, user);
    CountPush(w.events, e, w'.rows, Deleted, user);
  }

  lemma DeleteBalance(w: World, id: Uuid, user: string, excess: nat)
    requires WellFormed(w) && EventsKnown(w) && Balanced(w, user, excess) && id in w.rows && w.rows[id].active
    ensures EventsKnown(CommitDelete(w, id)) && Balanced(CommitDelete(w, id), user, excess)
  {
    var w' := CommitDelete(w, id);
    CountFrame(w.events, w.rows, w'.rows, Added, user);
    CountFrame(w.events, w.rows, w'.rows, Deleted, user);
    CountPush(w.events, DeleteEvent(w, id), w'.rows, Added, user);
    CountPush(w.events, DeleteEvent(w, id), w'.rows, Deleted, user);
    if w.rows[id].user == user {
      ActiveFlip(w.order, w.rows, w'.rows, user, id);
    } else {
      ActiveFrame(w.order, w.rows, w'.rows, user);
    }
  }

  predicate Commits(t: Text, w: World, r: AddRequest, fact: Fact, f: Faults) {
    r.id !in w.rows && (Displaced(w.edges, r.user, fact).Some? ==> Ok(f.close)) && TakesEffect(f.commit)
  }

  /** The Postgres side of an `add` depends on its failures only through whether the commit takes effect. */
  lemma StoreRows(t: Text, w: World, r: AddRequest, fact: Fact, now: int, f: Faults)
    ensures
      var w' := StoreStep(t, w, r, fact, now, f).0;
      var target := if Commits(t, w, r, fact, f)
        then CommitAdd(w, r.id, NewRow(t, r, now), Displaced(w.edges, r.user, fact)) else w;
      w'.rows == target.rows && w'.order == target.order && w'.events == target.events
  {
  }

  lemma StoreBalance(t: Text, w: World, torn: set<Uuid>, r: AddRequest, fact: Fact, now: int, f: Faults, user: string,
                     excess: nat)
    requires Safe(t, w, torn) && EventsKnown(w) && Balanced(w, user, excess)
    requires FactOf(t, r) == Some(fact)
    ensures EventsKnown(StoreStep(t, w, r, fact, now, f).0)
    ensures Balanced(StoreStep(t, w, r, fact, now, f).0, user, excess + ExcessBy(t, w, Add(r, f), user))
  {
    StoreRows(t, w, r, fact, now, f);
    var displaced := Displaced(w.edges, r.user, fact);
    if displaced.Some? {
      assert Faithful(t, w.rows, FindActive(w.edges, r.user, fact.entity, fact.relation).value);
    }
    if Commits(t, w, r, fact, f) {
      CommitBalance(w, r.id, NewRow(t, r, now), displaced, user, excess);
    }
  }

  lemma NoopBalance(t: Text, w: World, r: AddRequest, f: Faults, user: string, excess: nat)
    requires EventsKnown(w) && Balanced(w, user, excess)
    ensures EventsKnown(NoopStep(t, w, r, f).0) && Balanced(NoopStep(t, w, r, f).0, user, excess)
  {
  }

  lemma AddBalance(t: Text, w: World, torn: set<Uuid>, r: AddRequest, f: Faults, user: string, excess: nat)
    requires Safe(t, w, torn) && EventsKnown(w) && Balanced(w, user, excess)
    ensures EventsKnown(AddStep(t, w, r, f).0)
    ensures Balanced(AddStep(t, w, r, f).0, user, excess + ExcessBy(t, w, Add(r, f), user))
  {
    if FactOf(t, r).None? {
      NoopBalance(t, Tick(w), r, f, user, excess);
    } else {
      ForwardTick(w);
      assert Safe(t, Tick(w), torn);
      StoreBalance(t, Tick(w), torn, r, FactOf(t, r).value, w.clock, f, user, excess);
      assert ExcessBy(t, Tick(w), Add(r, f), user) == ExcessBy(t, w, Add(r, f), user);
    }
  }

  lemma DeleteStepBalance(w: World, id: Uuid, f: Faults, user: string, excess: nat)
    requires WellFormed(w) && EventsKnown(w) && Balanced(w, user, excess)
    ensures EventsKnown(DeleteStep(w, id, f).0) && Balanced(DeleteStep(w, id, f).0, user, excess)
  {
    if id in w.rows && w.rows[id].active && TakesEffect(f.commit) {
      DeleteBalance(Tick(w), id, user, excess);
    }
  }

  lemma StepBalance(t: Text, w: World, torn: set<Uuid>, op: Op, user: string, excess: nat)
    requires Safe(t, w, torn) && EventsKnown(w) && Balanced(w, user, excess)
    ensures EventsKnown(Step(t, w, op)) && Balanced(Step(t, w, op), user, excess + ExcessBy(t, w, op, user))
  {
    match op
    case Add(r, f) =>
      AddBalance(t, w, torn, r, f, user, excess);
    case Delete(id, f) =>
      DeleteStepBalance(w, id, f, user, excess);
  }

  /** Over every sequential history, failures included: active rows = ADD events - DELETE events + the UPDATEs that
      displaced an already inactive row. */
  lemma {:induction false} RunIsBalanced(t: Text, ops: seq<Op>, user: string)
    ensures EventsKnown(Run(t, ops)) && Balanced(Run(t, ops), user, Excess(t, ops, user))
  {
    if ops != [] {
      var n := |ops| - 1;
      RunIsBalanced(t, ops[..n], user);
      RunIsSafe(t, ops[..n]);
      StepBalance(t, Run(t, ops[..n]), Torn(t, ops[..n]), ops[n], user, Excess(t, ops[..n], user));
    }
  }

  /** Without failures the balance is exact. */
  lemma {:induction false} CleanRunConserves(t: Text, ops: seq<Op>, user: string)
    requires AllClean(ops)
    ensures Excess(t, ops, user) == 0
    ensures ActiveCount(Run(t, ops), user)
      == CountEvents(Run(t, ops).events, Run(t, ops).rows, Added, user)
         - CountEvents(Run(t, ops).events, Run(t, ops).rows, Deleted, user)
  {
    RunIsBalanced(t, ops, user);
    if ops != [] {
      var n := |ops| - 1;
      CleanRunConserves(t, ops[..n], user);
      RunIsCoupled(t, ops[..n]);
      var w := Run(t, ops[..n]);
      if ops[n].Add? && FactOf(t, ops[n].request).Some? {
        var fact := FactOf(t, ops[n].request).value;
        var newest := FindActive(w.edges, ops[n].request.user, fact.entity, fact.relation);
        assert newest.Some? ==> HasOpenEdge(w.edges, newest.value.memoryId);
      }
    }
  }
}
