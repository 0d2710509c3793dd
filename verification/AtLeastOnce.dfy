/** Retried graph writes may take effect twice; nobody can tell. */
module AtLeastOnce {
  import opened Domain
  import opened Stores
  import opened GraphClient
  import opened MockBackend
  import opened CrashSafety
  import opened Frame

  /** The same operation with each graph write taking effect at most once. */
  function OnceFaults(f: Faults): Faults { Faults(Once(f.close), f.commit, Once(f.link)) }

  function OnceOp(op: Op): Op {
    match op
    case Add(r, f) => Add(r, OnceFaults(f))
    case Delete(id, f) => Delete(id, OnceFaults(f))
  }

  function OnceOps(ops: seq<Op>): (r: seq<Op>)
    ensures |r| == |ops|
  {
    seq(|ops|, i requires 0 <= i < |ops| => OnceOp(ops[i]))
  }

  ghost predicate SameEdges(a: seq<Edge>, b: seq<Edge>) {
    forall e :: e in a <==> e in b
  }

  /** Equal up to duplicate edges. */
  ghost predicate EqualUpToCopies(w: World, w': World) {
    w' == w.(edges := w'.edges) && SameEdges(w.edges, w'.edges)
  }

  lemma SameNewest(t: Text, w: World, w': World, user: string, fact: Fact)
    requires WellFormed(w) && AllFaithful(t, w) && EqualUpToCopies(w, w')
    ensures FindActive(w'.edges, user, fact.entity, fact.relation)
      == FindActive(w.edges, user, fact.entity, fact.relation)
  {
  }

  lemma CloseAlike(a: seq<Edge>, b: seq<Edge>, id: Uuid, at: int, n: nat, m: nat)
    requires SameEdges(a, b) && (n == 0 <==> m == 0)
    ensures SameEdges(ApplyTimes(a, CloseFact(id, at), n), ApplyTimes(b, CloseFact(id, at), m))
  {
    CloseTimes(a, id, at, n);
    CloseTimes(b, id, at, m);
    if n > 0 {
      forall e ensures e in CloseEdges(a, id, at) <==> e in CloseEdges(b, id, at) {
        if e in CloseEdges(a, id, at) { CloseTransfers(a, b, id, at, e); }
        if e in CloseEdges(b, id, at) { CloseTransfers(b, a, id, at, e); }
      }
    }
  }

  lemma CloseTransfers(a: seq<Edge>, b: seq<Edge>, id: Uuid, at: int, e: Edge)
    requires SameEdges(a, b) && e in CloseEdges(a, id, at)
    ensures e in CloseEdges(b, id, at)
  {
    var d := CloseOrigin(a, id, at, e);
    var i :| 0 <= i < |b| && b[i] == d;
    assert CloseEdges(b, id, at)[i] == e;
  }

  lemma StoreAlike(t: Text, w: World, w': World, r: AddRequest, fact: Fact, now: int, f: Faults)
    requires WellFormed(w) && AllFaithful(t, w) && EqualUpToCopies(w, w')
    ensures EqualUpToCopies(StoreStep(t, w, r, fact, now, f).0, StoreStep(t, w', r, fact, now, OnceFaults(f)).0)
    ensures StoreStep(t, w, r, fact, now, f).1 == StoreStep(t, w', r, fact, now, OnceFaults(f)).1
  {
    SameNewest(t, w, w', r.user, fact);
    var displaced := Displaced(w.edges, r.user, fact);
    var w1 := AfterClose(w, displaced, now, f.close);
    var w1' := AfterClose(w', displaced, now, Once(f.close));
    if displaced.Some? {
      CloseAlike(w.edges, w'.edges, displaced.value, now, Copies(f.close), Copies(Once(f.close)));
    }
    CreateTimes(w1.edges, NewEdge(r, fact, now), Copies(f.link));
    CreateTimes(w1'.edges, NewEdge(r, fact, now), Copies(Once(f.link)));
  }

  lemma StepAlike(t: Text, w: World, w': World, torn: set<Uuid>, op: Op)
    requires Safe(t, w, torn) && EqualUpToCopies(w, w')
    ensures EqualUpToCopies(Step(t, w, op), Step(t, w', OnceOp(op)))
    ensures op.Add? ==> AddStep(t, w, op.request, op.faults).1 == AddStep(t, w', op.request, OnceFaults(op.faults)).1
    ensures op.Delete? ==> DeleteStep(w, op.id, op.faults).1 == DeleteStep(w', op.id, OnceFaults(op.faults)).1
  {
    match op
    case Add(r, f) =>
      if FactOf(t, r).Some? {
        StoreAlike(t, Tick(w), Tick(w'), r, FactOf(t, r).value, w.clock, f);
      }
    case Delete(id, f) =>
      CloseAlike(w.edges, w'.edges, id, w.clock, Copies(f.close), Copies(Once(f.close)));
  }

  /** At-least-once refines exactly-once: rows, log and edge set agree after every history. */
  lemma {:induction false} RetriesAreInvisible(t: Text, ops: seq<Op>)
    ensures EqualUpToCopies(Run(t, ops), Run(t, OnceOps(ops)))
  {
    if ops != [] {
      var n := |ops| - 1;
      RetriesAreInvisible(t, ops[..n]);
      RunIsSafe(t, ops[..n]);
      assert OnceOps(ops)[..n] == OnceOps(ops[..n]);
      StepAlike(t, Run(t, ops[..n]), Run(t, OnceOps(ops[..n])), Torn(t, ops[..n]), ops[n]);
    }
  }

  /** ... and so does everything a caller sees afterwards: every search, every lookup and the reply to any further
      operation. */
  lemma RetriesAreUnobservable(t: Text, ops: seq<Op>, user: string, q: string, topK: int, fact: Fact, next: Op)
    ensures Search(t, Run(t, OnceOps(ops)), user, q, topK) == Search(t, Run(t, ops), user, q, topK)
    ensures FindActive(Run(t, OnceOps(ops)).edges, user, fact.entity, fact.relation)
      == FindActive(Run(t, ops).edges, user, fact.entity, fact.relation)
    ensures GraphIds(t, Run(t, OnceOps(ops)).edges, user, q) == GraphIds(t, Run(t, ops).edges, user, q)
    ensures next.Add? ==>
      AddStep(t, Run(t, ops), next.request, next.faults).1
      == AddStep(t, Run(t, OnceOps(ops)), next.request, OnceFaults(next.faults)).1
    ensures next.Delete? ==>
      DeleteStep(Run(t, ops), next.id, next.faults).1
      == DeleteStep(Run(t, OnceOps(ops)), next.id, OnceFaults(next.faults)).1
  {
    var w, w' := Run(t, ops), Run(t, OnceOps(ops));
    RetriesAreInvisible(t, ops);
    RunIsSafe(t, ops);
    SameNewest(t, w, w', user, fact);
    SameViewSameSearch(t, w, w', user, q, topK);
    StepAlike(t, w, w', Torn(t, ops), next);
  }
}
