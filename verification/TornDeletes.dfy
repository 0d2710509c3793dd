/** Which inactive rows still have an open graph edge: exactly those of stopped deletes, until a later add displaces
    them. */
module TornDeletes {
  import opened Domain
  import opened Stores
  import opened GraphClient
  import opened MockBackend
  import opened CrashSafety
  import opened Coupling
  import opened Conservation

  ghost predicate Lingers(w: World, id: Uuid) {
    id in w.rows && !w.rows[id].active && HasOpenEdge(w.edges, id)
  }

  /** The memory whose edges an operation closes on its way to displacing it. */
  function ClosedBy(t: Text, w: World, op: Op): set<Uuid> {
    if op.Add? && FactOf(t, op.request).Some? && op.request.id !in w.rows && Copies(op.faults.close) > 0 then
      var displaced := Displaced(w.edges, op.request.user, FactOf(t, op.request).value);
      if displaced.Some? then {displaced.value} else {}
    else {}
  }

  /** The row a delete retires without closing its edges. */
  ghost function LeftBy(w: World, op: Op): set<Uuid> {
    set id | id in TornBy(w, op) && HasOpenEdge(w.edges, id)
  }

  ghost function StillTorn(t: Text, ops: seq<Op>): set<Uuid> {
    if ops == [] then {}
    else
      var n := |ops| - 1;
      (StillTorn(t, ops[..n]) - ClosedBy(t, Run(t, ops[..n]), ops[n])) + LeftBy(Run(t, ops[..n]), ops[n])
  }

  lemma CloseTimesOpen(edges: seq<Edge>, id: Uuid, at: int, n: nat, x: Uuid)
    ensures HasOpenEdge(ApplyTimes(edges, CloseFact(id, at), n), x) <==> HasOpenEdge(edges, x) && !(n > 0 && x == id)
  {
    CloseTimes(edges, id, at, n);
    if n > 0 {
      var edges' := CloseEdges(edges, id, at);
      if HasOpenEdge(edges', x) {
        var e :| e in edges' && Open(e) && e.memoryId == x;
        var d := CloseOrigin(edges, id, at, e);
      }
      if HasOpenEdge(edges, x) && x != id {
        var i :| 0 <= i < |edges| && Open(edges[i]) && edges[i].memoryId == x;
        assert edges'[i] in edges';
      }
    }
  }

  lemma LinkTimesOpen(edges: seq<Edge>, e: Edge, n: nat, x: Uuid)
    requires x != e.memoryId
    ensures HasOpenEdge(ApplyTimes(edges, CreateFact(e), n), x) <==> HasOpenEdge(edges, x)
  {
    CreateTimes(edges, e, n);
  }

  lemma StoreOpenEdges(t: Text, w: World, r: AddRequest, fact: Fact, now: int, f: Faults, x: Uuid)
    requires r.id !in w.rows && x != r.id
    ensures
      var displaced := Displaced(w.edges, r.user, fact);
      HasOpenEdge(StoreStep(t, w, r, fact, now, f).0.edges, x)
      <==> HasOpenEdge(w.edges, x) && !(displaced == Some(x) && Copies(f.close) > 0)
  {
    var displaced := Displaced(w.edges, r.user, fact);
    if displaced.Some? {
      CloseTimesOpen(w.edges, displaced.value, now, Copies(f.close), x);
    }
    LinkTimesOpen(AfterClose(w, displaced, now, f.close).edges, NewEdge(r, fact, now), Copies(f.link), x);
  }

  lemma StoreLingers(t: Text, w: World, r: AddRequest, fact: Fact, now: int, f: Faults, x: Uuid)
    requires r.id !in w.rows
    ensures
      var displaced := Displaced(w.edges, r.user, fact);
      Lingers(StoreStep(t, w, r, fact, now, f).0, x)
      <==> Lingers(w, x) && !(displaced == Some(x) && Copies(f.close) > 0)
  {
    StoreRows(t, w, r, fact, now, f);
    if x != r.id { StoreOpenEdges(t, w, r, fact, now, f, x); }
  }

  lemma DeleteLingers(w: World, id: Uuid, f: Faults, x: Uuid)
    ensures Lingers(DeleteStep(w, id, f).0, x) <==> Lingers(w, x) || x in LeftBy(w, Delete(id, f))
  {
    if id in w.rows && w.rows[id].active {
      CloseTimesOpen(w.edges, id, w.clock, Copies(f.close), x);
    }
  }

  lemma StepLingers(t: Text, w: World, op: Op, x: Uuid)
    ensures Lingers(Step(t, w, op), x) <==> (Lingers(w, x) && x !in ClosedBy(t, w, op)) || x in LeftBy(w, op)
  {
    match op
    case Add(r, f) =>
      if FactOf(t, r).Some? && r.id !in w.rows {
        StoreLingers(t, Tick(w), r, FactOf(t, r).value, w.clock, f, x);
        assert Lingers(Tick(w), x) <==> Lingers(w, x);
      }
    case Delete(id, f) =>
      DeleteLingers(w, id, f, x);
  }

  /** Over every history: a row is inactive with an open edge exactly when a delete left it so and no later add has
      closed its edges. */
  lemma {:induction false} LingeringIsTorn(t: Text, ops: seq<Op>, x: Uuid)
    ensures Lingers(Run(t, ops), x) <==> x in StillTorn(t, ops)
  {
    if ops != [] {
      var n := |ops| - 1;
      LingeringIsTorn(t, ops[..n], x);
      StepLingers(t, Run(t, ops[..n]), ops[n], x);
    }
  }
}
