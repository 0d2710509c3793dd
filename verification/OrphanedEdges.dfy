/** Exactly which graph edges the Mem0 adapter leaves without a row: app/memory/mem0_backend.py writes the graph before
    it commits. */
module OrphanedEdges {
  import opened Domain
  import opened Stores
  import opened GraphClient
  import opened CrashSafety
  import opened Mem0Mirror

  ghost predicate Names(edges: seq<Edge>, x: Uuid) {
    exists e :: e in edges && e.memoryId == x
  }

  /** Some edge names the memory, and there is no row for it. */
  ghost predicate Orphaned(w: World, x: Uuid) { Names(w.edges, x) && x !in w.rows }

  /** Every edge names a row. */
  ghost predicate Anchored(w: World) {
    forall x: Uuid :: !Orphaned(w, x)
  }

  /* ---------- what one item writes ---------- */

  /** The item reaches its graph link, and the link takes effect, whether or not it is reported to. */
  predicate Links(t: Text, i: Item, f: ItemFaults) {
    && f.flushed && i.event != "DELETE" && (i.event == "UPDATE" ==> Ok(f.close))
    && t.extract(ContentOf(t, i)).Some? && Copies(f.link) > 0
  }

  /** The ids linked by the first `n` items, of which only those up to the first one that raises are mirrored. */
  function LinkedIds(t: Text, w: World, items: seq<Item>, o: Owner, faults: BatchFaults, n: nat): set<Uuid>
    requires n <= |items|
  {
    if n == 0 then {}
    else
      var reached := MirrorMany(MirrorsBy(t, o, faults), w, items, n - 1).1;
      var linked := if reached && Links(t, items[n - 1], faults(n - 1)) then {items[n - 1].id} else {};
      LinkedIds(t, w, items, o, faults, n - 1) + linked
  }

  /** The ids a batch links without finding a row for them. */
  function StrayIds(t: Text, w: World, items: seq<Item>, o: Owner, faults: BatchFaults): set<Uuid> {
    LinkedIds(t, w, items, o, faults, |items|) - w.rows.Keys
  }

  /** The ids a batch writes rows for. */
  function WrittenIds(items: seq<Item>): set<Uuid> {
    set i | i in items && i.event != "DELETE" :: i.id
  }

  lemma CloseNames(edges: seq<Edge>, id: Uuid, at: int, n: nat, x: Uuid)
    ensures Names(ApplyTimes(edges, CloseFact(id, at), n), x) <==> Names(edges, x)
  {
    CloseTimes(edges, id, at, n);
    if n > 0 {
      var edges' := CloseEdges(edges, id, at);
      if Names(edges', x) {
        var e :| e in edges' && e.memoryId == x;
        var d := CloseOrigin(edges, id, at, e);
      }
      if Names(edges, x) {
        var i :| 0 <= i < |edges| && edges[i].memoryId == x;
        assert edges'[i] in edges';
      }
    }
  }

  lemma LinkNames(edges: seq<Edge>, e: Edge, n: nat, x: Uuid)
    ensures Names(ApplyTimes(edges, CreateFact(e), n), x) <==> Names(edges, x) || (n > 0 && x == e.memoryId)
  {
    CreateTimes(edges, e, n);
    var edges' := ApplyTimes(edges, CreateFact(e), n);
    if n > 0 { assert e in edges'; }
  }

  lemma StepNames(t: Text, w: World, i: Item, o: Owner, f: ItemFaults, x: Uuid)
    ensures Names(MirrorStep(t, w, i, o, f).0.edges, x) <==> Names(w.edges, x) || (x == i.id && Links(t, i, f))
  {
    var kept := if Closes(i) then ApplyTimes(w.edges, CloseFact(i.id, w.clock), Copies(f.close)) else w.edges;
    CloseNames(w.edges, i.id, w.clock, Copies(f.close), x);
    var fact := t.extract(ContentOf(t, i));
    if fact.Some? {
      var row := WrittenRow(t, w, i.id, ContentOf(t, i), o);
      LinkNames(kept, Edge(o.user, fact.value, i.id, row.createdAt, None), Copies(f.link), x);
    }
  }

  lemma {:induction false} BatchNames(t: Text, w: World, items: seq<Item>, o: Owner, faults: BatchFaults, n: nat,
                                      x: Uuid)
    requires n <= |items|
    ensures Names(MirrorMany(MirrorsBy(t, o, faults), w, items, n).0.edges, x)
      <==> Names(w.edges, x) || x in LinkedIds(t, w, items, o, faults, n)
  {
    if n > 0 {
      BatchNames(t, w, items, o, faults, n - 1, x);
      var before := MirrorMany(MirrorsBy(t, o, faults), w, items, n - 1);
      if before.1 { StepNames(t, before.0, items[n - 1], o, faults(n - 1), x); }
    }
  }

  lemma WrittenNext(items: seq<Item>, n: nat)
    requires n < |items|
    ensures WrittenIds(items[..n + 1])
      == WrittenIds(items[..n]) + if items[n].event != "DELETE" then {items[n].id} else {}
  {
    assert items[..n + 1] == items[..n] + [items[n]];
  }

  lemma LinkedNext(t: Text, w: World, items: seq<Item>, o: Owner, faults: BatchFaults, n: nat)
    requires n < |items|
    ensures LinkedIds(t, w, items, o, faults, n + 1)
      <= LinkedIds(t, w, items, o, faults, n) + if items[n].event != "DELETE" then {items[n].id} else {}
  {
  }

  lemma {:induction false} LinkedAreWritten(t: Text, w: World, items: seq<Item>, o: Owner, faults: BatchFaults, n: nat)
    requires n <= |items|
    ensures LinkedIds(t, w, items, o, faults, n) <= WrittenIds(items[..n])
  {
    if n > 0 {
      LinkedAreWritten(t, w, items, o, faults, n - 1);
      LinkedNext(t, w, items, o, faults, n - 1);
      WrittenNext(items, n - 1);
    }
  }

  /** An item that returns has left a row for its id, unless it is a DELETE. */
  ghost predicate WritesRows(step: SessionFn) {
    forall w, i, k: nat {:trigger step(w, i, k)} :: step(w, i, k).1 ==>
      step(w, i, k).0.rows.Keys == w.rows.Keys + if i.event != "DELETE" then {i.id} else {}
  }

  lemma StepWrites(t: Text, w: World, i: Item, o: Owner, f: ItemFaults)
    ensures MirrorStep(t, w, i, o, f).1 ==>
      MirrorStep(t, w, i, o, f).0.rows.Keys == w.rows.Keys + if i.event != "DELETE" then {i.id} else {}
  {
  }

  lemma MirrorWritesRows(t: Text, o: Owner, faults: BatchFaults)
    ensures WritesRows(MirrorsBy(t, o, faults))
  {
    var step := MirrorsBy(t, o, faults);
    forall w: World, i: Item, k: nat
      ensures step(w, i, k).1 ==> step(w, i, k).0.rows.Keys == w.rows.Keys + if i.event != "DELETE" then {i.id} else {}
    {
      StepWrites(t, w, i, o, faults(k));
    }
  }

  lemma {:induction false} BatchKeys(step: SessionFn, w: World, items: seq<Item>, n: nat)
    requires WritesRows(step) && n <= |items| && MirrorMany(step, w, items, n).1
    ensures MirrorMany(step, w, items, n).0.rows.Keys == w.rows.Keys + WrittenIds(items[..n])
  {
    if n > 0 {
      BatchKeys(step, w, items, n - 1);
      WrittenNext(items, n - 1);
    }
  }

  /* ---------- one call ---------- */

  /** The batch ends in a commit that takes effect, or there is nothing to mirror. */
  predicate Settles(t: Text, w: World, c: Call)
    requires c.AddCall?
  {
    IsNoop(t, c.text, c.sarcasm, c.results)
    || (var items := ActionableItems(c.results);
        MirrorMany(MirrorsBy(t, c.owner, c.faults), w, items, |items|).1 && TakesEffect(c.commit))
  }

  function Adopted(t: Text, c: Call): set<Uuid>
    requires c.AddCall?
  {
    if IsNoop(t, c.text, c.sarcasm, c.results) then {} else WrittenIds(ActionableItems(c.results))
  }

  function Strays(t: Text, w: World, c: Call): set<Uuid>
    requires c.AddCall?
  {
    StrayIds(t, w, ActionableItems(c.results), c.owner, c.faults)
  }

  /** A batch that settles gives rows to the orphans it writes; any other orphans what it linked without a row. */
  lemma AddOrphans(t: Text, w: World, c: Call, x: Uuid)
    requires c.AddCall?
    ensures Orphaned(CallStep(t, w, c), x)
      <==> if Settles(t, w, c) then Orphaned(w, x) && x !in Adopted(t, c) else Orphaned(w, x) || x in Strays(t, w, c)
  {
    if !IsNoop(t, c.text, c.sarcasm, c.results) {
      var items := ActionableItems(c.results);
      assert items[..|items|] == items;
      BatchNames(t, w, items, c.owner, c.faults, |items|, x);
      if MirrorMany(MirrorsBy(t, c.owner, c.faults), w, items, |items|).1 {
        MirrorWritesRows(t, c.owner, c.faults);
        BatchKeys(MirrorsBy(t, c.owner, c.faults), w, items, |items|);
        LinkedAreWritten(t, w, items, c.owner, c.faults, |items|);
      }
    }
  }

  lemma DeleteOrphans(t: Text, w: World, c: Call, x: Uuid)
    requires c.DeleteCall?
    ensures Orphaned(CallStep(t, w, c), x) <==> Orphaned(w, x)
  {
    CloseNames(w.edges, c.id, w.clock, Copies(c.close), x);
  }

  /** So from a graph whose edges all name rows, a batch keeps it so exactly when it settles or links nothing stray. */
  lemma AddAnchoredIff(t: Text, w: World, c: Call)
    requires c.AddCall? && Anchored(w)
    ensures Anchored(CallStep(t, w, c)) <==> Settles(t, w, c) || Strays(t, w, c) == {}
  {
    forall x: Uuid
      ensures Orphaned(CallStep(t, w, c), x) <==> !Settles(t, w, c) && x in Strays(t, w, c)
    {
      AddOrphans(t, w, c, x);
      assert !Orphaned(w, x);
    }
    if Strays(t, w, c) != {} {
      var x :| x in Strays(t, w, c);
      assert Orphaned(CallStep(t, w, c), x) <==> !Settles(t, w, c);
    }
  }

  /* ---------- histories ---------- */

  function OrphanIds(t: Text, calls: seq<Call>): set<Uuid> {
    if calls == [] then {}
    else
      var before, w, c := OrphanIds(t, calls[..|calls| - 1]), RunCalls(t, calls[..|calls| - 1]), calls[|calls| - 1];
      if c.DeleteCall? then before
      else if Settles(t, w, c) then before - Adopted(t, c)
      else before + Strays(t, w, c)
  }

  /** After every history, whatever fails in it, the edges without a row are those of the strays not adopted since. */
  lemma {:induction false} OrphansExactly(t: Text, calls: seq<Call>, x: Uuid)
    ensures Orphaned(RunCalls(t, calls), x) <==> x in OrphanIds(t, calls)
  {
    if calls != [] {
      var w, c := RunCalls(t, calls[..|calls| - 1]), calls[|calls| - 1];
      OrphansExactly(t, calls[..|calls| - 1], x);
      if c.AddCall? { AddOrphans(t, w, c, x); } else { DeleteOrphans(t, w, c, x); }
    }
  }

  ghost predicate AlwaysAnchored(t: Text, calls: seq<Call>) {
    Anchored(RunCalls(t, calls)) && (calls != [] ==> AlwaysAnchored(t, calls[..|calls| - 1]))
  }

  predicate StraysNothing(t: Text, w: World, c: Call) {
    c.AddCall? ==> Settles(t, w, c) || Strays(t, w, c) == {}
  }

  predicate NeverStrays(t: Text, calls: seq<Call>) {
    calls != [] ==>
      && NeverStrays(t, calls[..|calls| - 1])
      && StraysNothing(t, RunCalls(t, calls[..|calls| - 1]), calls[|calls| - 1])
  }

  lemma CallAnchoredIff(t: Text, w: World, c: Call)
    requires Anchored(w)
    ensures Anchored(CallStep(t, w, c)) <==> StraysNothing(t, w, c)
  {
    if c.AddCall? {
      AddAnchoredIff(t, w, c);
    } else {
      forall x: Uuid ensures !Orphaned(CallStep(t, w, c), x) {
        DeleteOrphans(t, w, c, x);
        assert !Orphaned(w, x);
      }
    }
  }

  /** Throughout a history every edge names a row, if and only if no batch that fails to settle links a stray. */
  lemma {:induction false} AnchoredIffNeverStrays(t: Text, calls: seq<Call>)
    ensures AlwaysAnchored(t, calls) <==> NeverStrays(t, calls)
  {
    if calls == [] {
      assert forall x: Uuid :: !Names(Empty.edges, x);
    } else {
      var front := calls[..|calls| - 1];
      AnchoredIffNeverStrays(t, front);
      if Anchored(RunCalls(t, front)) {
        CallAnchoredIff(t, RunCalls(t, front), calls[|calls| - 1]);
      }
      assert AlwaysAnchored(t, front) ==> Anchored(RunCalls(t, front));
    }
  }
}
