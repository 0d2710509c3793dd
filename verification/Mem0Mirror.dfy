/** The Mem0 adapter: app/memory/mem0_backend.py.  What Mem0 decides arrives as a list of items; each is mirrored into
    rows, audit log and graph. */
module Mem0Mirror {
  import opened Domain
  import opened Stores
  import opened GraphClient

  /** One normalized Mem0 result, its id already mapped to a uuid. */
  datatype Item = Item(id: Uuid, memory: Option<string>, event: string)

  datatype Owner = Owner(user: string, agentId: Option<string>, runId: Option<string>)

  predicate Actionable(i: Item) { i.event == "ADD" || i.event == "UPDATE" || i.event == "DELETE" }

  function ContentOf(t: Text, i: Item): string {
    t.strip(if i.memory.Some? then i.memory.value else "")
  }

  /* ---------- one item ---------- */

  /** The DELETE branch of `_mirror_event`; an unknown id leaves an event without a memory. */
  function MirrorDelete(w: World, id: Uuid): World {
    var found := id in w.rows;
    w.(rows := if found then w.rows[id := w.rows[id].(active := false)] else w.rows,
       events := w.events + [Event(if found then Some(id) else None, Deleted,
                                   if found then Some(w.rows[id].content) else None, None)],
       edges := CloseEdges(w.edges, id, w.clock))
  }

  /** The row an ADD or UPDATE leaves behind: a new one, or the old one rewritten and revived. */
  function WrittenRow(t: Text, w: World, id: Uuid, content: string, o: Owner): Row {
    if id in w.rows then w.rows[id].(content := content, embedding := t.embed(content), active := true)
    else Row(o.user, o.agentId, o.runId, content, t.embed(content), true, None, w.clock)
  }

  function LinkedEdges(t: Text, edges: seq<Edge>, id: Uuid, row: Row, user: string): seq<Edge> {
    var fact := t.extract(row.content);
    if fact.None? then edges else edges + [Edge(user, fact.value, id, row.createdAt, None)]
  }

  function MirrorWrite(t: Text, w: World, id: Uuid, content: string, update: bool, o: Owner): World {
    var row := WrittenRow(t, w, id, content, o);
    var quoted := if update && id in w.rows then Some(w.rows[id].content) else None;
    var edges := if update then CloseEdges(w.edges, id, w.clock) else w.edges;
    w.(rows := w.rows[id := row],
       order := if id in w.rows then w.order else w.order + [id],
       events := w.events + [Event(Some(id), if update then Updated else Added, quoted, Some(content))],
       edges := LinkedEdges(t, edges, id, row, o.user))
  }

  function MirrorItem(t: Text, w: World, i: Item, o: Owner): World {
    if i.event == "DELETE" then MirrorDelete(w, i.id)
      else MirrorWrite(t, w, i.id, ContentOf(t, i), i.event == "UPDATE", o)
  }

  /* ---------- histories ---------- */

  /** The atoms of a failure-free history: a mirrored item, a `delete` call, a NOOP record, the end of an operation. */
  datatype Micro = Mirror(item: Item, owner: Owner) | Forget(id: Uuid) | Note(content: string) | EndCall

  function MicroStep(t: Text, w: World, m: Micro): World {
    match m
    case Mirror(i, o) => MirrorItem(t, w, i, o)
    case Forget(id) => if id in w.rows && w.rows[id].active then MirrorDelete(w, id) else w
    case Note(content) => w.(events := w.events + [Event(None, Noop, None, Some(content))])
    case EndCall => w.(clock := w.clock + 1)
  }

  function Play(t: Text, w: World, ms: seq<Micro>): World {
    if ms == [] then w else MicroStep(t, Play(t, w, ms[..|ms| - 1]), ms[|ms| - 1])
  }

  lemma PlayOne(t: Text, w: World, m: Micro)
    ensures Play(t, w, [m]) == MicroStep(t, w, m)
  {
    assert [m][..0] == [] && Play(t, w, []) == w;
  }

  lemma PlayTwo(t: Text, w: World, a: Micro, b: Micro)
    ensures Play(t, w, [a, b]) == MicroStep(t, MicroStep(t, w, a), b)
  {
    assert [a, b][..1] == [a] && [a][..0] == [];
    assert Play(t, w, [a]) == MicroStep(t, Play(t, w, []), a);
  }

  function ActionableItems(items: seq<Item>): seq<Item> {
    if items == [] then []
    else
      var n := |items| - 1;
      ActionableItems(items[..n]) + if Actionable(items[n]) then [items[n]] else []
  }

  function Mirrors(items: seq<Item>, o: Owner): (r: seq<Micro>)
    ensures |r| == |items|
    ensures forall i :: 0 <= i < |r| ==> r[i] == Mirror(items[i], o)
  {
    seq(|items|, i requires 0 <= i < |items| => Mirror(items[i], o))
  }

  /** The memory an `add` reports: the first mirrored item that has a row. */
  function Primary(t: Text, w: World, items: seq<Item>, o: Owner): Option<Uuid> {
    if items == [] then None
    else
      var n := |items| - 1;
      var first := Primary(t, w, items[..n], o);
      if first.Some? then first
      else if items[n].event != "DELETE" || items[n].id in Play(t, w, Mirrors(items[..n], o)).rows
        then Some(items[n].id)
      else None
  }

  /** The atoms of one `add`: a sarcastic text never reaches Mem0. */
  function AddMicros(t: Text, text: string, sarcasm: bool, o: Owner, results: seq<Item>): seq<Micro> {
    var clean := t.strip(text);
    if sarcasm || t.sarcastic(clean) || ActionableItems(results) == [] then [Note(clean), EndCall]
    else Mirrors(ActionableItems(results), o) + [EndCall]
  }

  /* ---------- with failures ---------- */

  /** What happens to one item: whether the session flushes, and the fate of each graph write. */
  datatype ItemFaults = ItemFaults(flushed: bool, close: Attempts, link: Attempts)

  const NoItemFaults := ItemFaults(true, Attempts(Succeeds, Succeeds), Attempts(Succeeds, Succeeds))

  predicate Closes(i: Item) { i.event == "DELETE" || i.event == "UPDATE" }

  /** The graph half of `_mirror_event`, and whether it returns. */
  function FaultyEdges(t: Text, w: World, i: Item, o: Owner, f: ItemFaults): (seq<Edge>, bool) {
    var kept := if Closes(i) then ApplyTimes(w.edges, CloseFact(i.id, w.clock), Copies(f.close)) else w.edges;
    if Closes(i) && !Ok(f.close) then (kept, false)
    else if i.event == "DELETE" then (kept, true)
    else LinkFact(t, kept, i.id, WrittenRow(t, w, i.id, ContentOf(t, i), o), o.user, f.link)
  }

  /** `_graph_upsert`. */
  function LinkFact(t: Text, edges: seq<Edge>, id: Uuid, row: Row, user: string, a: Attempts): (seq<Edge>, bool) {
    var fact := t.extract(row.content);
    if fact.None? then (edges, true)
    else (ApplyTimes(edges, CreateFact(Edge(user, fact.value, id, row.createdAt, None)), Copies(a)), Ok(a))
  }

  /** `_mirror_event` in an open session. */
  function MirrorStep(t: Text, w: World, i: Item, o: Owner, f: ItemFaults): (World, bool) {
    if !f.flushed then (w, false)
    else
      var (edges, ok) := FaultyEdges(t, w, i, o, f);
      (MirrorItem(t, w, i, o).(edges := edges), ok)
  }

  type BatchFaults = nat -> ItemFaults

  /** What the `k`-th item of a batch does to the session, and whether it returns. */
  type SessionFn = (World, Item, nat) -> (World, bool)

  function MirrorsBy(t: Text, o: Owner, faults: BatchFaults): SessionFn {
    (w, i, k: nat) => MirrorStep(t, w, i, o, faults(k))
  }

  /** The first `n` items of a batch, up to the first one that raises. */
  function MirrorMany(step: SessionFn, w: World, items: seq<Item>, n: nat): (World, bool)
    requires n <= |items|
  {
    if n == 0 then (w, true)
    else
      var (before, ok) := MirrorMany(step, w, items, n - 1);
      if ok then step(before, items[n - 1], n - 1) else (before, false)
  }

  function Ticked(w: World): World { w.(clock := w.clock + 1) }

  /** How the session of a batch ends: one commit at the end, or a rollback that leaves the graph as it is. */
  function Settle(w: World, session: World, ok: bool, commit: Attempt): (World, bool) {
    (Ticked(if ok && TakesEffect(commit) then session else w.(edges := session.edges)), ok && commit == Succeeds)
  }

  predicate IsNoop(t: Text, text: string, sarcasm: bool, results: seq<Item>) {
    sarcasm || t.sarcastic(t.strip(text)) || ActionableItems(results) == []
  }

  /** `add`, given what Mem0 answered, and whether it returns. */
  function AddCallStep(t: Text, w: World, text: string, sarcasm: bool, o: Owner, results: seq<Item>,
                       faults: BatchFaults, commit: Attempt)
    : (World, bool)
  {
    if IsNoop(t, text, sarcasm, results) then
      Settle(w, w.(events := w.events + [Event(None, Noop, None, Some(t.strip(text)))]), true, commit)
    else
      var items := ActionableItems(results);
      var (session, ok) := MirrorMany(MirrorsBy(t, o, faults), w, items, |items|);
      Settle(w, session, ok, commit)
  }

  /** `delete`, once Mem0 has been told, and whether it returns. */
  function DeleteCallStep(w: World, id: Uuid, commit: Attempt, close: Attempts): (World, bool) {
    if id !in w.rows || !w.rows[id].active then (Ticked(w), true)
    else
      var w1 := if TakesEffect(commit) then MirrorDelete(w, id).(edges := w.edges) else w;
      if commit != Succeeds then (Ticked(w1), false)
      else (Ticked(w1.(edges := ApplyTimes(w.edges, CloseFact(id, w.clock), Copies(close)))), Ok(close))
  }

  /** A rolled-back or committed session: its rows and events do not depend on what happened to the graph. */
  ghost predicate SameTables(a: World, b: World) {
    a.rows == b.rows && a.order == b.order && a.events == b.events && a.clock == b.clock
  }

  lemma MirrorNext(t: Text, w: World, items: seq<Item>, i: nat, o: Owner)
    requires i < |items|
    ensures Play(t, w, Mirrors(items[..i + 1], o)) == MirrorItem(t, Play(t, w, Mirrors(items[..i], o)), items[i], o)
    ensures Primary(t, w, items[..i + 1], o) ==
      var first := Primary(t, w, items[..i], o);
      if first.None? && (items[i].event != "DELETE" || items[i].id in Play(t, w, Mirrors(items[..i], o)).rows)
        then Some(items[i].id) else first
  {
    assert items[..i + 1][..i] == items[..i];
    assert Mirrors(items[..i + 1], o)[..i] == Mirrors(items[..i], o);
  }

  ghost predicate TracksTables(step: SessionFn, t: Text, o: Owner) {
    forall a, b, i, k: nat {:trigger step(a, i, k), MirrorItem(t, b, i, o)} :: SameTables(a, b) && step(a, i, k).1 ==>
      SameTables(step(a, i, k).0, MirrorItem(t, b, i, o))
  }

  lemma StepTables(t: Text, a: World, b: World, i: Item, o: Owner, f: ItemFaults)
    requires SameTables(a, b) && MirrorStep(t, a, i, o, f).1
    ensures SameTables(MirrorStep(t, a, i, o, f).0, MirrorItem(t, b, i, o))
  {
  }

  lemma MirrorTracksTables(t: Text, o: Owner, faults: BatchFaults)
    ensures TracksTables(MirrorsBy(t, o, faults), t, o)
  {
    var step := MirrorsBy(t, o, faults);
    forall a: World, b: World, i: Item, k: nat | SameTables(a, b) && step(a, i, k).1
      ensures SameTables(step(a, i, k).0, MirrorItem(t, b, i, o))
    {
      StepTables(t, a, b, i, o, faults(k));
    }
  }

  lemma BatchNext(step: SessionFn, w: World, items: seq<Item>, n: nat)
    requires n < |items|
    ensures MirrorMany(step, w, items, n + 1) ==
      var (before, ok) := MirrorMany(step, w, items, n);
      if ok then step(before, items[n], n) else (before, false)
  {
  }

  lemma {:induction false} BatchTables(step: SessionFn, t: Text, w: World, items: seq<Item>, o: Owner, n: nat)
    requires TracksTables(step, t, o) && n <= |items| && MirrorMany(step, w, items, n).1
    ensures SameTables(MirrorMany(step, w, items, n).0, Play(t, w, Mirrors(items[..n], o)))
  {
    if n > 0 {
      BatchTables(step, t, w, items, o, n - 1);
      MirrorNext(t, w, items, n - 1, o);
    }
  }

  class Mem0MemoryBackend {
    const t: Text
    const graph: Neo4jClient
    var rows: map<Uuid, Row>
    var order: seq<Uuid>
    var events: seq<Event>
    var clock: int

    constructor (t: Text, graph: Neo4jClient)
      requires graph.edges == []
      ensures this.t == t && this.graph == graph && Contents() == Empty
    {
      this.t, this.graph := t, graph;
      rows, order, events, clock := map[], [], [], 0;
    }

    /** The tables as the open session sees them, and the graph. */
    function Contents(): World
      reads this, graph
    {
      World(rows, order, events, graph.edges, clock)
    }

    method GraphUpsert(id: Uuid, row: Row, user: string, a: Attempts) returns (ok: bool)
      modifies graph
      ensures (graph.edges, ok) == LinkFact(t, old(graph.edges), id, row, user, a)
    {
      var fact := t.extract(row.content);
      if fact.None? {
        return true;
      }
      ok := graph.RunWrite(CreateFact(Edge(user, fact.value, id, row.createdAt, None)), a);
    }

    /** `_mirror_event`; `stored` says whether there is a memory row to report. */
    method MirrorEvent(i: Item, o: Owner, f: ItemFaults) returns (stored: bool, ok: bool)
      modifies this, graph
      ensures (Contents(), ok) == MirrorStep(t, old(Contents()), i, o, f)
      ensures clock == old(clock)
      ensures ok ==> stored == (i.event != "DELETE" || i.id in old(rows))
    {
      if !f.flushed {
        return false, false;
      }
      var content := t.strip(if i.memory.Some? then i.memory.value else "");
      var oldContent := None;
      if i.event == "DELETE" {
        stored := i.id in rows;
        if stored {
          oldContent := Some(rows[i.id].content);
          rows := rows[i.id := rows[i.id].(active := false)];
        }
        events := events + [Event(if stored then Some(i.id) else None, Deleted, oldContent, None)];
        ok := graph.RunWrite(CloseFact(i.id, clock), f.close);
        return;
      }
      var memory: Row;
      if i.id !in rows {
        memory := Row(o.user, o.agentId, o.runId, content, t.embed(content), true, None, clock);
        order := order + [i.id];
      } else {
        oldContent := Some(rows[i.id].content);
        memory := rows[i.id].(content := content, embedding := t.embed(content), active := true);
      }
      rows := rows[i.id := memory];
      events := events + [Event(Some(i.id), if i.event == "UPDATE" then Updated else Added,
                                if i.event == "UPDATE" then oldContent else None, Some(content))];
      if i.event == "UPDATE" {
        ok := graph.RunWrite(CloseFact(i.id, clock), f.close);
        if !ok {
          return true, false;
        }
      }
      ok := GraphUpsert(i.id, memory, o.user, f.link);
      stored := true;
    }

    /** `add`, given what Mem0 answered.  An exception on the way rolls the session back. */
    method Add(text: string, sarcasm: bool, o: Owner, results: seq<Item>, faults: BatchFaults, commit: Attempt)
      returns (primary: Option<Uuid>, ok: bool)
      modifies this, graph
      ensures (Contents(), ok) == AddCallStep(t, old(Contents()), text, sarcasm, o, results, faults, commit)
      ensures ok ==> primary == if sarcasm || t.sarcastic(t.strip(text)) then None
        else Primary(t, old(Contents()), ActionableItems(results), o)
    {
      var clean := t.strip(text);
      ghost var w := Contents();
      var rows0, order0, events0 := rows, order, events;
      primary, ok := None, true;
      var actionable := ActionableItems(results);
      if sarcasm || t.sarcastic(clean) || actionable == [] {
        events := events + [Event(None, Noop, None, Some(clean))];
      } else {
        ok, primary := MirrorBatch(actionable, o, faults);
      }
      if !ok || !TakesEffect(commit) {
        rows, order, events := rows0, order0, events0;
      }
      ok := ok && commit == Succeeds;
      clock := clock + 1;
    }

    /** The loop over the actionable items. */
    method MirrorBatch(items: seq<Item>, o: Owner, faults: BatchFaults) returns (ok: bool, primary: Option<Uuid>)
      modifies this, graph
      ensures (Contents(), ok) == MirrorMany(MirrorsBy(t, o, faults), old(Contents()), items, |items|)
      ensures clock == old(clock)
      ensures ok ==> primary == Primary(t, old(Contents()), items, o)
    {
      ghost var w, step := Contents(), MirrorsBy(t, o, faults);
      MirrorTracksTables(t, o, faults);
      primary := None;
      for i := 0 to |items|
        invariant clock == old(clock)
        invariant MirrorMany(step, w, items, i) == (Contents(), true)
        invariant primary == Primary(t, w, items[..i], o)
      {
        MirrorNext(t, w, items, i, o);
        BatchTables(step, t, w, items, o, i);
        BatchNext(step, w, items, i);
        var stored;
        stored, ok := MirrorEvent(items[i], o, faults(i));
        if !ok {
          BatchStops(step, w, items, i + 1, |items|);
          return;
        }
        if primary.None? && stored {
          primary := Some(items[i].id);
        }
      }
      assert items[..|items|] == items;
      ok := true;
    }

    /** `delete`: Mem0 is told first, then the row, the log and the graph follow. */
    method Delete(id: Uuid, commit: Attempt, close: Attempts) returns (deleted: bool, ok: bool)
      modifies this, graph
      ensures (Contents(), ok) == DeleteCallStep(old(Contents()), id, commit, close)
      ensures ok ==> deleted == (id in old(rows) && old(rows)[id].active)
    {
      var now := clock;
      clock := clock + 1;
      deleted := id in rows && rows[id].active;
      if !deleted {
        return false, true;
      }
      if TakesEffect(commit) {
        events := events + [Event(Some(id), Deleted, Some(rows[id].content), None)];
        rows := rows[id := rows[id].(active := false)];
      }
      if commit != Succeeds {
        return true, false;
      }
      ok := graph.RunWrite(CloseFact(id, now), close);
    }
  }

  lemma {:induction false} BatchStops(step: SessionFn, w: World, items: seq<Item>, i: nat, n: nat)
    requires i <= n <= |items| && !MirrorMany(step, w, items, i).1
    ensures MirrorMany(step, w, items, n) == MirrorMany(step, w, items, i)
  {
    if i < n { BatchStops(step, w, items, i, n - 1); }
  }

  /* ---------- a call that does not fail ---------- */

  predicate NeverFails(faults: BatchFaults, n: nat) {
    forall i: nat :: i < n ==> faults(i) == NoItemFaults
  }

  lemma CleanMirror(t: Text, w: World, i: Item, o: Owner)
    ensures MirrorStep(t, w, i, o, NoItemFaults) == (MirrorItem(t, w, i, o), true)
  {
    var kept := if Closes(i) then CloseEdges(w.edges, i.id, w.clock) else w.edges;
    assert ApplyTimes(w.edges, CloseFact(i.id, w.clock), 0) == w.edges;
    assert ApplyTimes(w.edges, CloseFact(i.id, w.clock), 1) == CloseEdges(w.edges, i.id, w.clock);
    var row := WrittenRow(t, w, i.id, ContentOf(t, i), o);
    CleanLink(t, kept, i.id, row, o.user);
  }

  lemma CleanLink(t: Text, edges: seq<Edge>, id: Uuid, row: Row, user: string)
    ensures LinkFact(t, edges, id, row, user, NoItemFaults.link) == (LinkedEdges(t, edges, id, row, user), true)
  {
    var fact := t.extract(row.content);
    if fact.Some? {
      assert ApplyTimes(edges, CreateFact(Edge(user, fact.value, id, row.createdAt, None)), 0) == edges;
    }
  }

  lemma {:induction false} CleanBatch(t: Text, w: World, items: seq<Item>, o: Owner, faults: BatchFaults, n: nat)
    requires n <= |items| && NeverFails(faults, n)
    ensures MirrorMany(MirrorsBy(t, o, faults), w, items, n) == (Play(t, w, Mirrors(items[..n], o)), true)
  {
    if n > 0 {
      CleanBatch(t, w, items, o, faults, n - 1);
      MirrorNext(t, w, items, n - 1, o);
      CleanMirror(t, Play(t, w, Mirrors(items[..n - 1], o)), items[n - 1], o);
    }
  }

  /** Without failures a batch is exactly the fold of its atoms. */
  lemma CleanAddIsPlay(t: Text, w: World, text: string, sarcasm: bool, o: Owner, results: seq<Item>,
                       faults: BatchFaults)
    requires NeverFails(faults, |ActionableItems(results)|)
    ensures AddCallStep(t, w, text, sarcasm, o, results, faults, Succeeds)
      == (Play(t, w, AddMicros(t, text, sarcasm, o, results)), true)
  {
    if IsNoop(t, text, sarcasm, results) {
      PlayTwo(t, w, Note(t.strip(text)), EndCall);
    } else {
      var items := ActionableItems(results);
      CleanBatch(t, w, items, o, faults, |items|);
      assert items[..|items|] == items;
      var ms := Mirrors(items, o);
      assert (ms + [EndCall])[..|ms|] == ms;
    }
  }

  lemma CleanDeleteIsPlay(t: Text, w: World, id: Uuid)
    ensures DeleteCallStep(w, id, Succeeds, Attempts(Succeeds, Succeeds)) == (Play(t, w, [Forget(id), EndCall]), true)
  {
    PlayTwo(t, w, Forget(id), EndCall);
    assert ApplyTimes(w.edges, CloseFact(id, w.clock), 0) == w.edges;
    assert ApplyTimes(w.edges, CloseFact(id, w.clock), 1) == CloseEdges(w.edges, id, w.clock);
  }

  /* ---------- replaying the audit log ---------- */

  datatype Replayed = Replayed(content: string, active: bool)

  /** What the log says about a memory: ADD and UPDATE set its content and revive it, DELETE retires it. */
  function Replay(events: seq<Event>, id: Uuid): Option<Replayed> {
    if events == [] then None
    else
      var n := |events| - 1;
      var before := Replay(events[..n], id);
      if events[n].memoryId != Some(id) then before
      else match events[n].kind
        case Added => if events[n].newContent.Some? then Some(Replayed(events[n].newContent.value, true)) else before
        case Updated => if events[n].newContent.Some? then Some(Replayed(events[n].newContent.value, true)) else before
        case Deleted => if before.Some? then Some(before.value.(active := false)) else None
        case Noop => before
  }

  function Stored(w: World, id: Uuid): Option<Replayed> {
    if id in w.rows then Some(Replayed(w.rows[id].content, w.rows[id].active)) else None
  }

  /** The chain: an UPDATE or DELETE quotes the content the log held for its memory, an ADD quotes nothing. */
  ghost predicate Quotes(events: seq<Event>, e: Event) {
    && (e.kind == Added ==> e.oldContent.None?)
    && (e.kind in {Updated, Deleted} && e.memoryId.Some? ==>
          e.oldContent == (var r := Replay(events, e.memoryId.value); if r.Some? then Some(r.value.content) else None))
    && (e.memoryId.None? ==> e.oldContent.None?)
  }

  ghost predicate Chained(events: seq<Event>) {
    forall i :: 0 <= i < |events| ==> Quotes(events[..i], events[i])
  }

  ghost predicate Replays(w: World) {
    (forall id :: Replay(w.events, id) == Stored(w, id)) && Chained(w.events)
  }

  lemma ReplayPush(events: seq<Event>, e: Event, id: Uuid)
    requires e.memoryId != Some(id)
    ensures Replay(events + [e], id) == Replay(events, id)
  {
  }

  lemma ChainPush(events: seq<Event>, e: Event)
    requires Chained(events) && Quotes(events, e)
    ensures Chained(events + [e])
  {
    var all := events + [e];
    forall i | 0 <= i < |all| ensures Quotes(all[..i], all[i]) {
      if i < |events| {
        assert all[..i] == events[..i];
      } else {
        assert all[..i] == events;
      }
    }
  }

  lemma StepReplays(t: Text, w: World, m: Micro)
    requires Replays(w)
    ensures Replays(MicroStep(t, w, m))
  {
    var w' := MicroStep(t, w, m);
    if w'.events != w.events {
      var e := w'.events[|w.events|];
      assert w'.events == w.events + [e];
      assert w'.events[..|w.events|] == w.events;
      if e.memoryId.Some? {
        assert Replay(w.events, e.memoryId.value) == Stored(w, e.memoryId.value);
      }
      forall id: Uuid ensures Replay(w'.events, id) == Stored(w', id) {
        assert Replay(w.events, id) == Stored(w, id);
        if e.memoryId != Some(id) { ReplayPush(w.events, e, id); }
      }
      ChainPush(w.events, e);
    }
  }

  lemma {:induction false} PlayReplays(t: Text, w: World, ms: seq<Micro>)
    requires Replays(w)
    ensures Replays(Play(t, w, ms))
  {
    if ms != [] {
      PlayReplays(t, w, ms[..|ms| - 1]);
      StepReplays(t, Play(t, w, ms[..|ms| - 1]), ms[|ms| - 1]);
    }
  }

  /** One call of the adapter, with what goes wrong in it. */
  datatype Call =
    | AddCall(text: string, sarcasm: bool, owner: Owner, results: seq<Item>, faults: BatchFaults, commit: Attempt)
    | DeleteCall(id: Uuid, commit: Attempt, close: Attempts)

  function CallStep(t: Text, w: World, c: Call): World {
    match c
    case AddCall(text, sarcasm, o, results, faults, commit) =>
      AddCallStep(t, w, text, sarcasm, o, results, faults, commit).0
    case DeleteCall(id, commit, close) => DeleteCallStep(w, id, commit, close).0
  }

  function RunCalls(t: Text, calls: seq<Call>): World {
    if calls == [] then Empty else CallStep(t, RunCalls(t, calls[..|calls| - 1]), calls[|calls| - 1])
  }

  /** No write of the call fails. */
  predicate Flawless(c: Call) {
    match c
    case AddCall(_, _, _, results, faults, commit) =>
      commit == Succeeds && NeverFails(faults, |ActionableItems(results)|)
    case DeleteCall(_, commit, close) => commit == Succeeds && close == Attempts(Succeeds, Succeeds)
  }

  function CallMicros(t: Text, c: Call): seq<Micro> {
    match c
    case AddCall(text, sarcasm, o, results, _, _) => AddMicros(t, text, sarcasm, o, results)
    case DeleteCall(id, _, _) => [Forget(id), EndCall]
  }

  function RunMicros(t: Text, calls: seq<Call>): seq<Micro> {
    if calls == [] then [] else RunMicros(t, calls[..|calls| - 1]) + CallMicros(t, calls[|calls| - 1])
  }

  lemma {:induction false} PlayConcat(t: Text, w: World, a: seq<Micro>, b: seq<Micro>)
    ensures Play(t, w, a + b) == Play(t, Play(t, w, a), b)
  {
    if b == [] {
      assert a + b == a;
    } else {
      var n := |b| - 1;
      assert (a + b)[..|a| + n] == a + b[..n];
      PlayConcat(t, w, a, b[..n]);
    }
  }

  lemma FlawlessCallIsPlay(t: Text, w: World, c: Call)
    requires Flawless(c)
    ensures CallStep(t, w, c) == Play(t, w, CallMicros(t, c))
  {
    match c
    case AddCall(text, sarcasm, o, results, faults, _) => CleanAddIsPlay(t, w, text, sarcasm, o, results, faults);
    case DeleteCall(id, _, _) => CleanDeleteIsPlay(t, w, id);
  }

  /** A history of calls without failures is one failure-free history of their atoms. */
  lemma {:induction false} FlawlessRunIsPlay(t: Text, calls: seq<Call>)
    requires forall i :: 0 <= i < |calls| ==> Flawless(calls[i])
    ensures RunCalls(t, calls) == Play(t, Empty, RunMicros(t, calls))
  {
    if calls != [] {
      var n := |calls| - 1;
      FlawlessRunIsPlay(t, calls[..n]);
      FlawlessCallIsPlay(t, RunCalls(t, calls[..n]), calls[n]);
      PlayConcat(t, Empty, RunMicros(t, calls[..n]), CallMicros(t, calls[n]));
    }
  }

  lemma TablesReplay(a: World, b: World)
    requires Replays(a) && b.rows == a.rows && b.events == a.events
    ensures Replays(b)
  {
    forall id: Uuid ensures Replay(b.events, id) == Stored(b, id) {
      assert Replay(a.events, id) == Stored(a, id);
    }
  }

  lemma AddReplays(t: Text, w: World, text: string, sarcasm: bool, o: Owner, results: seq<Item>, faults: BatchFaults,
                   commit: Attempt)
    requires Replays(w)
    ensures Replays(AddCallStep(t, w, text, sarcasm, o, results, faults, commit).0)
  {
    var w' := AddCallStep(t, w, text, sarcasm, o, results, faults, commit).0;
    if IsNoop(t, text, sarcasm, results) {
      StepReplays(t, w, Note(t.strip(text)));
      TablesReplay(if TakesEffect(commit) then MicroStep(t, w, Note(t.strip(text))) else w, w');
    } else {
      var items := ActionableItems(results);
      var (session, ok) := MirrorMany(MirrorsBy(t, o, faults), w, items, |items|);
      if ok && TakesEffect(commit) {
        MirrorTracksTables(t, o, faults);
        BatchTables(MirrorsBy(t, o, faults), t, w, items, o, |items|);
        PlayReplays(t, w, Mirrors(items[..|items|], o));
        TablesReplay(Play(t, w, Mirrors(items[..|items|], o)), w');
      } else {
        TablesReplay(w, w');
      }
    }
  }

  lemma DeleteReplays(t: Text, w: World, id: Uuid, commit: Attempt, close: Attempts)
    requires Replays(w)
    ensures Replays(DeleteCallStep(w, id, commit, close).0)
  {
    StepReplays(t, w, Forget(id));
    var changed := id in w.rows && w.rows[id].active && TakesEffect(commit);
    TablesReplay(if changed then MicroStep(t, w, Forget(id)) else w, DeleteCallStep(w, id, commit, close).0);
  }

  /** After any sequence of batches and deletes, whatever flush, commit or graph write failed in them, every row is the
      replay of its log entries, and the log is a linked chain. */
  lemma {:induction false} LogReplays(t: Text, calls: seq<Call>)
    ensures Replays(RunCalls(t, calls))
  {
    if calls == [] {
      assert forall id :: Replay(Empty.events, id) == None;
    } else {
      var w := RunCalls(t, calls[..|calls| - 1]);
      LogReplays(t, calls[..|calls| - 1]);
      match calls[|calls| - 1]
      case AddCall(text, sarcasm, o, results, faults, commit) =>
        AddReplays(t, w, text, sarcasm, o, results, faults, commit);
      case DeleteCall(id, commit, close) => DeleteReplays(t, w, id, commit, close);
    }
  }

  /* ---------- the graph ---------- */

  function OpenCount(edges: seq<Edge>, id: Uuid): nat {
    if edges == [] then 0
    else
      var n := |edges| - 1;
      OpenCount(edges[..n], id) + if Open(edges[n]) && edges[n].memoryId == id then 1 else 0
  }

  /** How many open edges a memory should have. */
  function Due(t: Text, w: World, id: Uuid): nat {
    if id in w.rows && w.rows[id].active && t.extract(w.rows[id].content).Some? then 1 else 0
  }

  ghost predicate GraphCoupled(t: Text, w: World) {
    forall id :: OpenCount(w.edges, id) == Due(t, w, id)
  }

  /** Mem0 reports an ADD for a memory that still has an open edge. */
  predicate Reuses(w: World, m: Micro) {
    m.Mirror? && m.item.event != "UPDATE" && m.item.event != "DELETE" && OpenCount(w.edges, m.item.id) > 0
  }

  lemma {:induction false} CloseCount(edges: seq<Edge>, id: Uuid, at: int, x: Uuid)
    ensures OpenCount(CloseEdges(edges, id, at), x) == if x == id then 0 else OpenCount(edges, x)
  {
    if edges != [] {
      var n := |edges| - 1;
      CloseCount(edges[..n], id, at, x);
      assert CloseEdges(edges, id, at)[..n] == CloseEdges(edges[..n], id, at);
      assert CloseEdges(edges, id, at)[n] == Closed(edges[n], id, at);
    }
  }

  lemma LinkCount(t: Text, edges: seq<Edge>, id: Uuid, row: Row, user: string, x: Uuid)
    ensures OpenCount(LinkedEdges(t, edges, id, row, user), x)
      == OpenCount(edges, x) + if x == id && t.extract(row.content).Some? then 1 else 0
  {
  }

  lemma StepCount(t: Text, w: World, m: Micro, x: Uuid)
    requires OpenCount(w.edges, x) == Due(t, w, x)
    ensures OpenCount(MicroStep(t, w, m).edges, x) == Due(t, MicroStep(t, w, m), x)
      <==> !(Reuses(w, m) && m.item.id == x)
  {
    match m
    case Mirror(i, o) =>
      CloseCount(w.edges, i.id, w.clock, x);
      if i.event != "DELETE" {
        var edges := if i.event == "UPDATE" then CloseEdges(w.edges, i.id, w.clock) else w.edges;
        LinkCount(t, edges, i.id, WrittenRow(t, w, i.id, ContentOf(t, i), o), o.user, x);
      }
    case Forget(id) =>
      CloseCount(w.edges, id, w.clock, x);
    case Note(_) =>
    case EndCall =>
  }

  /** One step keeps graph and rows coupled exactly when it does not re-add a memory with an open edge. */
  lemma StepGraph(t: Text, w: World, m: Micro)
    requires GraphCoupled(t, w)
    ensures GraphCoupled(t, MicroStep(t, w, m)) <==> !Reuses(w, m)
  {
    forall x: Uuid ensures OpenCount(MicroStep(t, w, m).edges, x) == Due(t, MicroStep(t, w, m), x)
      <==> !(Reuses(w, m) && m.item.id == x) {
      assert OpenCount(w.edges, x) == Due(t, w, x);
      StepCount(t, w, m, x);
    }
    assert Reuses(w, m) ==> OpenCount(MicroStep(t, w, m).edges, m.item.id) != Due(t, MicroStep(t, w, m), m.item.id);
  }

  ghost predicate AlwaysCoupled(t: Text, ms: seq<Micro>) {
    GraphCoupled(t, Play(t, Empty, ms)) && (ms != [] ==> AlwaysCoupled(t, ms[..|ms| - 1]))
  }

  predicate NeverReuses(t: Text, ms: seq<Micro>) {
    ms != [] ==> NeverReuses(t, ms[..|ms| - 1]) && !Reuses(Play(t, Empty, ms[..|ms| - 1]), ms[|ms| - 1])
  }

  /** Throughout a history each memory has one open edge exactly when it is active with a fact-bearing content, if and
      only if no ADD reuses an id with an open edge. */
  lemma {:induction false} CoupledIffNoReuse(t: Text, ms: seq<Micro>)
    ensures AlwaysCoupled(t, ms) <==> NeverReuses(t, ms)
  {
    if ms == [] {
      assert GraphCoupled(t, Empty);
    } else {
      var front := ms[..|ms| - 1];
      CoupledIffNoReuse(t, front);
      if GraphCoupled(t, Play(t, Empty, front)) {
        StepGraph(t, Play(t, Empty, front), ms[|ms| - 1]);
      }
      assert AlwaysCoupled(t, front) ==> GraphCoupled(t, Play(t, Empty, front));
    }
  }

  /** Such a reuse: the same ADD mirrored twice leaves two open edges. */
  lemma ReuseOpensTwo(t: Text, i: Item, o: Owner)
    requires i.event == "ADD" && t.extract(ContentOf(t, i)).Some?
    ensures OpenCount(Play(t, Empty, [Mirror(i, o), Mirror(i, o)]).edges, i.id) == 2
  {
    PlayTwo(t, Empty, Mirror(i, o), Mirror(i, o));
    var once := MirrorItem(t, Empty, i, o);
    LinkCount(t, Empty.edges, i.id, WrittenRow(t, Empty, i.id, ContentOf(t, i), o), o.user, i.id);
    LinkCount(t, once.edges, i.id, WrittenRow(t, once, i.id, ContentOf(t, i), o), o.user, i.id);
  }

  /** The graph is written before the batch commits, so a commit that fails leaves an open edge for a memory that does
      not exist. */
  lemma LostCommitOrphansEdge(t: Text, text: string, o: Owner, i: Item, faults: BatchFaults)
    requires !t.sarcastic(t.strip(text)) && i.event == "ADD" && t.extract(ContentOf(t, i)).Some?
      && NeverFails(faults, 1)
    ensures
      var w := AddCallStep(t, Empty, text, false, o, [i], faults, FailsBefore).0;
      w.rows == map[] && OpenCount(w.edges, i.id) == 1
  {
    assert [i][..0] == [] && ActionableItems([i]) == [i];
    CleanBatch(t, Empty, [i], o, faults, 1);
    assert [i][..1] == [i] && Mirrors([i], o) == [Mirror(i, o)];
    PlayOne(t, Empty, Mirror(i, o));
    LinkCount(t, Empty.edges, i.id, WrittenRow(t, Empty, i.id, ContentOf(t, i), o), o.user, i.id);
  }
}
