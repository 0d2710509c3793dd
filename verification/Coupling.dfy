/** What failure-free sequential histories keep: the row table and the open graph edges agree exactly, and the open
    facts of each key follow a simple per-key list. */
module Coupling {
  import opened Domain
  import opened Stores
  import opened MockBackend
  import opened CrashSafety

  ghost predicate HasOpenEdge(edges: seq<Edge>, id: Uuid) {
    exists e :: e in edges && Open(e) && e.memoryId == id
  }

  /** The ids with an open edge are exactly the active row ids. */
  ghost predicate OpenIffActive(w: World) {
    forall id :: HasOpenEdge(w.edges, id) <==> id in w.rows && w.rows[id].active
  }

  /** No id has two open edges. */
  ghost predicate OneOpenEdge(edges: seq<Edge>) {
    forall i, j :: 0 <= i < j < |edges| && Open(edges[i]) && Open(edges[j]) ==> edges[i].memoryId != edges[j].memoryId
  }

  ghost predicate Ascending(edges: seq<Edge>) {
    forall i, j :: 0 <= i < j < |edges| ==> edges[i].validFrom <= edges[j].validFrom
  }

  ghost predicate Coupled(t: Text, w: World) {
    Safe(t, w, {}) && OpenIffActive(w) && OneOpenEdge(w.edges) && Ascending(w.edges)
  }

  lemma CloseCoupling(edges: seq<Edge>, id: Uuid, at: int)
    requires OneOpenEdge(edges) && Ascending(edges)
    ensures OneOpenEdge(CloseEdges(edges, id, at)) && Ascending(CloseEdges(edges, id, at))
    ensures forall x :: HasOpenEdge(CloseEdges(edges, id, at), x) <==> HasOpenEdge(edges, x) && x != id
  {
  }

  lemma LinkCoupling(edges: seq<Edge>, e: Edge)
    requires OneOpenEdge(edges) && Ascending(edges) && Open(e) && !HasOpenEdge(edges, e.memoryId)
    requires forall d :: d in edges ==> d.validFrom <= e.validFrom
    ensures OneOpenEdge(edges + [e]) && Ascending(edges + [e])
    ensures forall x :: HasOpenEdge(edges + [e], x) <==> HasOpenEdge(edges, x) || x == e.memoryId
  {
  }

  function EdgesAfterClose(edges: seq<Edge>, displaced: Option<Uuid>, now: int): seq<Edge> {
    if displaced.Some? then CloseEdges(edges, displaced.value, now) else edges
  }

  /** A failure-free store in one picture. */
  lemma StoreShape(t: Text, w: World, r: AddRequest, fact: Fact, now: int)
    requires r.id !in w.rows
    ensures
      var displaced := Displaced(w.edges, r.user, fact);
      var kept := EdgesAfterClose(w.edges, displaced, now);
      StoreStep(t, w, r, fact, now, NoFaults).0
        == CommitAdd(w.(edges := kept), r.id, NewRow(t, r, now), displaced).(edges := kept + [NewEdge(r, fact, now)])
  {
    var displaced := Displaced(w.edges, r.user, fact);
    var kept := EdgesAfterClose(w.edges, displaced, now);
    if displaced.Some? {
      CloseTimes(w.edges, displaced.value, now, 1);
    }
    assert ApplyTimes(kept, CreateFact(NewEdge(r, fact, now)), 0) == kept;
    assert ApplyTimes(kept, CreateFact(NewEdge(r, fact, now)), 1) == kept + [NewEdge(r, fact, now)];
  }

  lemma CloseThenCommitCoupling(t: Text, w: World, r: AddRequest, fact: Fact, now: int)
    requires Coupled(t, w) && r.id !in w.rows
    ensures
      var displaced := Displaced(w.edges, r.user, fact);
      var kept := EdgesAfterClose(w.edges, displaced, now);
      var rows := CommitAdd(w, r.id, NewRow(t, r, now), displaced).rows;
      && OneOpenEdge(kept) && Ascending(kept) && !HasOpenEdge(kept, r.id)
      && forall id :: HasOpenEdge(kept, id) || id == r.id <==> id in rows && rows[id].active
  {
    var displaced := Displaced(w.edges, r.user, fact);
    if displaced.Some? {
      CloseCoupling(w.edges, displaced.value, now);
      assert HasOpenEdge(w.edges, displaced.value);
    }
  }

  lemma StoreCoupled(t: Text, w: World, r: AddRequest, fact: Fact, now: int)
    requires Coupled(t, w) && now < w.clock && FactOf(t, r) == Some(fact)
    requires forall x :: x in w.rows ==> w.rows[x].createdAt < now
    ensures Coupled(t, StoreStep(t, w, r, fact, now, NoFaults).0)
  {
    if r.id !in w.rows {
      StoreSafe(t, w, {}, r, fact, now, NoFaults);
      StoreShape(t, w, r, fact, now);
      CloseThenCommitCoupling(t, w, r, fact, now);
      var displaced := Displaced(w.edges, r.user, fact);
      var kept := EdgesAfterClose(w.edges, displaced, now);
      forall d | d in kept ensures d.validFrom <= now {
        EdgesNotNewer(t, w, displaced, now, d);
      }
      LinkCoupling(kept, NewEdge(r, fact, now));
      assert CommitAdd(w.(edges := kept), r.id, NewRow(t, r, now), displaced).rows
        == CommitAdd(w, r.id, NewRow(t, r, now), displaced).rows;
    }
  }

  lemma EdgesNotNewer(t: Text, w: World, displaced: Option<Uuid>, now: int, d: Edge)
    requires AllFaithful(t, w) && d in EdgesAfterClose(w.edges, displaced, now)
    requires forall x :: x in w.rows ==> w.rows[x].createdAt < now
    ensures d.validFrom <= now
  {
    var o := d;
    if displaced.Some? { o := CloseOrigin(w.edges, displaced.value, now, d); }
    assert Faithful(t, w.rows, o);
  }

  lemma DeleteCoupled(t: Text, w: World, id: Uuid)
    requires Coupled(t, w)
    ensures Coupled(t, DeleteStep(w, id, NoFaults).0)
  {
    DeleteSafe(t, w, {}, id, NoFaults);
    CloseTimes(w.edges, id, w.clock, 1);
    CloseCoupling(w.edges, id, w.clock);
    assert {} + TornBy(w, Delete(id, NoFaults)) == {};
  }

  lemma StepCoupled(t: Text, w: World, op: Op)
    requires Coupled(t, w) && Clean(op)
    ensures Coupled(t, Step(t, w, op))
  {
    match op
    case Add(r, f) =>
      ForwardTick(w);
      if FactOf(t, r).Some? {
        StoreCoupled(t, Tick(w), r, FactOf(t, r).value, w.clock);
      } else {
        StepSafe(t, w, {}, op);
      }
    case Delete(id, f) =>
      DeleteCoupled(t, w, id);
  }

  /** Exact coupling over every failure-free history. */
  lemma {:induction false} RunIsCoupled(t: Text, ops: seq<Op>)
    requires AllClean(ops)
    ensures Coupled(t, Run(t, ops))
  {
    if ops == [] {
      assert forall id :: !HasOpenEdge(Empty.edges, id);
    } else {
      RunIsCoupled(t, ops[..|ops| - 1]);
      StepCoupled(t, Run(t, ops[..|ops| - 1]), ops[|ops| - 1]);
    }
  }

  /* ---------- the per-key list ---------- */

  datatype Key = Key(user: string, entity: string, relation: string)

  datatype Entry = Entry(id: Uuid, obj: string)

  function KeyOf(user: string, fact: Fact): Key { Key(user, fact.entity, fact.relation) }

  predicate IsOpenFact(e: Edge, k: Key) { Open(e) && KeyOf(e.user, e.fact) == k }

  /** The open facts of a key, in the order their edges were created. */
  function OpenFacts(edges: seq<Edge>, k: Key): seq<Entry> {
    if edges == [] then []
    else
      var n := |edges| - 1;
      OpenFacts(edges[..n], k) + if IsOpenFact(edges[n], k) then [Entry(edges[n].memoryId, edges[n].fact.obj)] else []
  }

  function Without(l: seq<Entry>, id: Uuid): seq<Entry> {
    if l == [] then []
    else
      var n := |l| - 1;
      Without(l[..n], id) + if l[n].id == id then [] else [l[n]]
  }

  /** The abstract state: the facts each key currently has, oldest first, and the ids spent. */
  datatype Ledger = Ledger(facts: map<Key, seq<Entry>>, used: set<Uuid>)

  function Held(l: Ledger, k: Key): seq<Entry> { if k in l.facts then l.facts[k] else [] }

  /** Restating the newest object pushes; a different object replaces the newest entry. */
  function Assert(held: seq<Entry>, e: Entry): seq<Entry> {
    if held != [] && held[|held| - 1].obj != e.obj then held[..|held| - 1] + [e] else held + [e]
  }

  function LedgerStep(t: Text, l: Ledger, op: Op): Ledger {
    match op
    case Add(r, _) =>
      var fact := FactOf(t, r);
      if fact.None? || r.id in l.used then l
      else
        var k := KeyOf(r.user, fact.value);
        Ledger(l.facts[k := Assert(Held(l, k), Entry(r.id, fact.value.obj))], l.used + {r.id})
    case Delete(id, _) =>
      Ledger(map k | k in l.facts :: Without(l.facts[k], id), l.used)
  }

  function LedgerRun(t: Text, ops: seq<Op>): Ledger {
    if ops == [] then Ledger(map[], {}) else LedgerStep(t, LedgerRun(t, ops[..|ops| - 1]), ops[|ops| - 1])
  }

  ghost predicate Refines(w: World, l: Ledger) {
    (forall k :: OpenFacts(w.edges, k) == Held(l, k)) && l.used == w.rows.Keys
  }

  lemma {:induction false} OpenFactOrigin(edges: seq<Edge>, k: Key, x: Entry) returns (e: Edge)
    requires x in OpenFacts(edges, k)
    ensures e in edges && IsOpenFact(e, k) && x == Entry(e.memoryId, e.fact.obj)
  {
    var n := |edges| - 1;
    if x in OpenFacts(edges[..n], k) {
      e := OpenFactOrigin(edges[..n], k, x);
    } else {
      e := edges[n];
    }
  }

  lemma {:induction false} CloseIsWithout(edges: seq<Edge>, id: Uuid, at: int, k: Key)
    ensures OpenFacts(CloseEdges(edges, id, at), k) == Without(OpenFacts(edges, k), id)
  {
    if edges != [] {
      var n := |edges| - 1;
      CloseIsWithout(edges[..n], id, at, k);
      assert CloseEdges(edges, id, at)[..n] == CloseEdges(edges[..n], id, at);
      assert CloseEdges(edges, id, at)[n] == Closed(edges[n], id, at);
      WithoutPush(OpenFacts(edges[..n], k), Entry(edges[n].memoryId, edges[n].fact.obj), id);
    }
  }

  lemma WithoutPush(l: seq<Entry>, x: Entry, id: Uuid)
    ensures Without(l + [x], id) == Without(l, id) + if x.id == id then [] else [x]
    ensures Without(l + [], id) == Without(l, id)
  {
    assert (l + [x])[..|l|] == l;
    assert l + [] == l;
  }

  lemma {:induction false} WithoutAbsent(l: seq<Entry>, id: Uuid)
    requires forall x :: x in l ==> x.id != id
    ensures Without(l, id) == l
  {
    if l != [] {
      var n := |l| - 1;
      WithoutAbsent(l[..n], id);
      assert l[n] in l;
      assert l == l[..n] + [l[n]];
    }
  }

  lemma {:induction false} OpenFactsDistinct(edges: seq<Edge>, k: Key)
    requires OneOpenEdge(edges)
    ensures forall i, j :: 0 <= i < j < |OpenFacts(edges, k)| ==> OpenFacts(edges, k)[i].id != OpenFacts(edges, k)[j].id
  {
    if edges != [] {
      var n := |edges| - 1;
      OpenFactsDistinct(edges[..n], k);
      var front := OpenFacts(edges[..n], k);
      forall i | 0 <= i < |front| && Open(edges[n]) ensures front[i].id != edges[n].memoryId {
        assert front[i] in front;
        var e := OpenFactOrigin(edges[..n], k, front[i]);
        var a :| 0 <= a < n && edges[a] == e;
      }
    }
  }

  /** The graph lookup finds the last entry of the key's list. */
  lemma {:induction false} NewestIsLast(edges: seq<Edge>, user: string, fact: Fact)
    requires Ascending(edges)
    ensures FindActive(edges, user, fact.entity, fact.relation).Some? <==> OpenFacts(edges, KeyOf(user, fact)) != []
    ensures
      var found, held := FindActive(edges, user, fact.entity, fact.relation), OpenFacts(edges, KeyOf(user, fact));
      held != [] ==> held[|held| - 1] == Entry(found.value.memoryId, found.value.fact.obj)
  {
    if edges != [] {
      NewestIsLast(edges[..|edges| - 1], user, fact);
    }
  }

  lemma LinkPushes(edges: seq<Edge>, e: Edge, k: Key)
    requires Open(e)
    ensures OpenFacts(edges + [e], k) == OpenFacts(edges, k) + if KeyOf(e.user, e.fact) == k
      then [Entry(e.memoryId, e.fact.obj)] else []
  {
  }

  lemma StoreRefines(t: Text, w: World, l: Ledger, r: AddRequest, fact: Fact, now: int, k: Key)
    requires Coupled(t, w) && Refines(w, l) && FactOf(t, r) == Some(fact) && r.id !in w.rows
    ensures OpenFacts(StoreStep(t, w, r, fact, now, NoFaults).0.edges, k) ==
      if k == KeyOf(r.user, fact) then Assert(Held(l, k), Entry(r.id, fact.obj)) else Held(l, k)
  {
    var displaced := Displaced(w.edges, r.user, fact);
    StoreShape(t, w, r, fact, now);
    NewestIsLast(w.edges, r.user, fact);
    if displaced.Some? {
      CloseIsWithout(w.edges, displaced.value, now, k);
      DisplacedOnlyInItsKey(t, w, r, fact, k);
    }
    LinkPushes(EdgesAfterClose(w.edges, displaced, now), NewEdge(r, fact, now), k);
  }

  lemma WithoutLast(held: seq<Entry>)
    requires held != [] && forall i, j :: 0 <= i < j < |held| ==> held[i].id != held[j].id
    ensures Without(held, held[|held| - 1].id) == held[..|held| - 1]
  {
    var n := |held| - 1;
    forall x | x in held[..n] ensures x.id != held[n].id {
      var i :| 0 <= i < n && held[i] == x;
    }
    WithoutAbsent(held[..n], held[n].id);
  }

  lemma AbsentFromOtherKeys(t: Text, w: World, e: Edge, k: Key)
    requires AllFaithful(t, w) && e in w.edges && k != KeyOf(e.user, e.fact)
    ensures Without(OpenFacts(w.edges, k), e.memoryId) == OpenFacts(w.edges, k)
  {
    assert Faithful(t, w.rows, e);
    forall x | x in OpenFacts(w.edges, k) ensures x.id != e.memoryId {
      var d := OpenFactOrigin(w.edges, k, x);
      assert Faithful(t, w.rows, d);
    }
    WithoutAbsent(OpenFacts(w.edges, k), e.memoryId);
  }

  lemma DisplacedOnlyInItsKey(t: Text, w: World, r: AddRequest, fact: Fact, k: Key)
    requires Coupled(t, w)
    requires Displaced(w.edges, r.user, fact).Some?
    ensures
      var held := OpenFacts(w.edges, k);
      Without(held, Displaced(w.edges, r.user, fact).value) == if k == KeyOf(r.user, fact)
        && held != [] then held[..|held| - 1] else held
  {
    var newest := FindActive(w.edges, r.user, fact.entity, fact.relation).value;
    if k == KeyOf(r.user, fact) {
      NewestIsLast(w.edges, r.user, fact);
      OpenFactsDistinct(w.edges, k);
      WithoutLast(OpenFacts(w.edges, k));
    } else {
      AbsentFromOtherKeys(t, w, newest, k);
    }
  }

  lemma DeleteRefines(t: Text, w: World, l: Ledger, id: Uuid, k: Key)
    requires Coupled(t, w) && Refines(w, l)
    ensures OpenFacts(DeleteStep(w, id, NoFaults).0.edges, k) == Without(Held(l, k), id)
  {
    if id in w.rows && w.rows[id].active {
      CloseTimes(w.edges, id, w.clock, 1);
      CloseIsWithout(w.edges, id, w.clock, k);
    } else {
      forall x | x in OpenFacts(w.edges, k) ensures x.id != id {
        var e := OpenFactOrigin(w.edges, k, x);
        assert HasOpenEdge(w.edges, e.memoryId);
      }
      WithoutAbsent(OpenFacts(w.edges, k), id);
    }
  }

  lemma AddRefines(t: Text, w: World, l: Ledger, r: AddRequest, k: Key)
    requires Coupled(t, w) && Refines(w, l)
    ensures OpenFacts(AddStep(t, w, r, NoFaults).0.edges, k) == Held(LedgerStep(t, l, Add(r, NoFaults)), k)
  {
    assert OpenFacts(w.edges, k) == Held(l, k);
    if FactOf(t, r).Some? && r.id !in w.rows {
      ForwardTick(w);
      assert Coupled(t, Tick(w));
      assert Refines(Tick(w), l);
      StoreRefines(t, Tick(w), l, r, FactOf(t, r).value, w.clock, k);
    }
  }

  lemma AddSpends(t: Text, w: World, l: Ledger, r: AddRequest)
    requires Coupled(t, w) && l.used == w.rows.Keys
    ensures LedgerStep(t, l, Add(r, NoFaults)).used == AddStep(t, w, r, NoFaults).0.rows.Keys
  {
  }

  lemma StepRefines(t: Text, w: World, l: Ledger, op: Op)
    requires Coupled(t, w) && Refines(w, l) && Clean(op)
    ensures Refines(Step(t, w, op), LedgerStep(t, l, op))
  {
    match op
    case Add(r, f) =>
      forall k ensures OpenFacts(Step(t, w, op).edges, k) == Held(LedgerStep(t, l, op), k) {
        AddRefines(t, w, l, r, k);
      }
      AddSpends(t, w, l, r);
    case Delete(id, f) =>
      forall k ensures OpenFacts(Step(t, w, op).edges, k) == Held(LedgerStep(t, l, op), k) {
        DeleteRefines(t, w, l, id, k);
        if k !in l.facts { assert Without([], id) == []; }
      }
  }

  /** Over every failure-free history the two stores refine the per-key list. */
  lemma {:induction false} RunRefinesLedger(t: Text, ops: seq<Op>)
    requires AllClean(ops)
    ensures Refines(Run(t, ops), LedgerRun(t, ops))
  {
    if ops == [] {
      assert forall k :: OpenFacts(Empty.edges, k) == [];
    } else {
      var n := |ops| - 1;
      RunIsCoupled(t, ops[..n]);
      RunRefinesLedger(t, ops[..n]);
      StepRefines(t, Run(t, ops[..n]), LedgerRun(t, ops[..n]), ops[n]);
    }
  }

  /* ---------- when a key keeps at most one open fact ---------- */

  /** The operation stores a fact whose object is the newest one its key already holds. */
  predicate Restates(t: Text, w: World, op: Op) {
    && op.Add? && FactOf(t, op.request).Some? && op.request.id !in w.rows
    && var fact := FactOf(t, op.request).value;
       var newest := FindActive(w.edges, op.request.user, fact.entity, fact.relation);
       newest.Some? && newest.value.fact.obj == fact.obj
  }

  ghost predicate AtMostOneOpen(w: World) {
    forall k :: |OpenFacts(w.edges, k)| <= 1
  }

  lemma StepMultiplicity(t: Text, w: World, l: Ledger, op: Op)
    requires Coupled(t, w) && Refines(w, l) && Clean(op) && AtMostOneOpen(w)
    ensures AtMostOneOpen(Step(t, w, op)) <==> !Restates(t, w, op)
  {
    StepRefines(t, w, l, op);
    var w', l' := Step(t, w, op), LedgerStep(t, l, op);
    forall k ensures |Held(l', k)| <= 1
      <==> !(Restates(t, w, op) && k == KeyOf(op.request.user, FactOf(t, op.request).value))
    {
      KeyMultiplicity(t, w, l, op, k);
    }
    if Restates(t, w, op) {
      var k := KeyOf(op.request.user, FactOf(t, op.request).value);
      assert OpenFacts(w'.edges, k) == Held(l', k);
    } else {
      forall k ensures |OpenFacts(w'.edges, k)| <= 1 { assert OpenFacts(w'.edges, k) == Held(l', k); }
    }
  }

  lemma KeyMultiplicity(t: Text, w: World, l: Ledger, op: Op, k: Key)
    requires Coupled(t, w) && Refines(w, l) && AtMostOneOpen(w)
    ensures |Held(LedgerStep(t, l, op), k)| <= 1
      <==> !(Restates(t, w, op) && k == KeyOf(op.request.user, FactOf(t, op.request).value))
  {
    assert OpenFacts(w.edges, k) == Held(l, k);
    assert |OpenFacts(w.edges, k)| <= 1;
    match op
    case Add(r, _) =>
      if FactOf(t, r).Some? { NewestIsLast(w.edges, r.user, FactOf(t, r).value); }
    case Delete(id, _) =>
      WithoutShorter(Held(l, k), id);
  }

  lemma {:induction false} WithoutShorter(l: seq<Entry>, id: Uuid)
    ensures |Without(l, id)| <= |l|
  {
    if l != [] { WithoutShorter(l[..|l| - 1], id); }
  }

  /** After every prefix of the history each key has at most one open fact. */
  ghost predicate AlwaysAtMostOne(t: Text, ops: seq<Op>) {
    AtMostOneOpen(Run(t, ops)) && (ops != [] ==> AlwaysAtMostOne(t, ops[..|ops| - 1]))
  }

  predicate NeverRestates(t: Text, ops: seq<Op>) {
    ops != [] ==> NeverRestates(t, ops[..|ops| - 1]) && !Restates(t, Run(t, ops[..|ops| - 1]), ops[|ops| - 1])
  }

  /** Every key keeps at most one open fact throughout a history exactly when no operation restates. */
  lemma {:induction false} OneFactIffNoRestatement(t: Text, ops: seq<Op>)
    requires AllClean(ops)
    ensures AlwaysAtMostOne(t, ops) <==> NeverRestates(t, ops)
  {
    if ops == [] {
      assert forall k :: OpenFacts(Empty.edges, k) == [];
    } else {
      var front := ops[..|ops| - 1];
      OneFactIffNoRestatement(t, front);
      RunIsCoupled(t, front);
      RunRefinesLedger(t, front);
      if AtMostOneOpen(Run(t, front)) {
        StepMultiplicity(t, Run(t, front), LedgerRun(t, front), ops[|ops| - 1]);
      }
      assert AlwaysAtMostOne(t, front) ==> AtMostOneOpen(Run(t, front));
    }
  }

  /** Saying the same thing twice, from the empty store, leaves two open facts. */
  lemma RestatementOpensTwo(t: Text, r: AddRequest, r': AddRequest)
    requires FactOf(t, r).Some? && r' == r.(id := r'.id) && r'.id != r.id
    ensures |OpenFacts(Run(t, [Add(r, NoFaults), Add(r', NoFaults)]).edges, KeyOf(r.user, FactOf(t, r).value))| == 2
  {
    var ops := [Add(r, NoFaults), Add(r', NoFaults)];
    RunRefinesLedger(t, ops);
    assert ops[..1] == [Add(r, NoFaults)];
    assert [Add(r, NoFaults)][..0] == [];
    assert LedgerRun(t, ops) == LedgerStep(t, LedgerStep(t, LedgerRun(t, []), ops[0]), ops[1]);
    assert LedgerRun(t, []) == Ledger(map[], {});
    assert OpenFacts(Run(t, ops).edges, KeyOf(r.user, FactOf(t, r).value))
      == Held(LedgerRun(t, ops), KeyOf(r.user, FactOf(t, r).value));
  }
}
