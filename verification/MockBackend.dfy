/** The rule-based backend: app/memory/mock_backend.py. */
module MockBackend {
  import opened Domain
  import opened Retrieval
  import opened Stores
  import opened GraphClient

  datatype AddRequest = AddRequest(
    id: Uuid, text: string, user: string, agentId: Option<string>, runId: Option<string>, infer: bool, sarcasm: bool)

  datatype AddReply =
    | NotStored(event: Event, reason: string)
    | Stored(id: Uuid, row: Row, stored: Event, fact: Fact)
    | AddRaised

  datatype DeleteReply = NotDeleted | DeletedRow(id: Uuid, row: Row, event: Event) | DeleteRaised

  /** What happens to each store write of one operation; a process that stops before or after a write is
      `FailsBefore` or `FailsAfter`. */
  datatype Faults = Faults(close: Attempts, commit: Attempt, link: Attempts)

  const NoFaults := Faults(Attempts(Succeeds, Succeeds), Succeeds, Attempts(Succeeds, Succeeds))

  /** The fact of a request that is to be stored; `None` for a NOOP. */
  function FactOf(t: Text, r: AddRequest): Option<Fact> {
    var text := t.strip(r.text);
    if r.sarcasm || t.sarcastic(text) || !r.infer then None else t.extract(text)
  }

  function NewRow(t: Text, r: AddRequest, now: int): Row {
    var text := t.strip(r.text);
    Row(r.user, r.agentId, r.runId, text, t.embed(text), true, None, now)
  }

  function NewEdge(r: AddRequest, fact: Fact, now: int): Edge {
    Edge(r.user, fact, r.id, now, None)
  }

  function NoopEvent(t: Text, r: AddRequest): Event {
    Event(None, Noop, None, Some(t.strip(r.text)))
  }

  function NoopReason(t: Text, r: AddRequest): string {
    if r.sarcasm || t.sarcastic(t.strip(r.text)) then "sarcasm_or_no_fact" else "no_fact"
  }

  /** The memory whose fact the request displaces: the newest open one for the key, if it has another object. */
  function Displaced(edges: seq<Edge>, user: string, fact: Fact): Option<Uuid> {
    Contradicted(FindActive(edges, user, fact.entity, fact.relation), fact.obj)
  }

  function Contradicted(newest: Option<Edge>, obj: string): Option<Uuid> {
    if newest.Some? && newest.value.fact.obj != obj then Some(newest.value.memoryId) else None
  }

  function Tick(w: World): World { w.(clock := w.clock + 1) }

  function WithEdges(w: World, g: GraphWrite, n: nat): World { w.(edges := ApplyTimes(w.edges, g, n)) }

  /** The first graph write of an `add`, closing the displaced fact. */
  function AfterClose(w: World, displaced: Option<Uuid>, now: int, a: Attempts): World {
    if displaced.Some? then WithEdges(w, CloseFact(displaced.value, now), Copies(a)) else w
  }

  function AfterCommit(t: Text, w: World, r: AddRequest, displaced: Option<Uuid>, now: int, a: Attempt): World {
    if TakesEffect(a) then CommitAdd(w, r.id, NewRow(t, r, now), displaced) else w
  }

  /** `MockMemoryBackend.add` of a request that carries a fact. */
  function StoreStep(t: Text, w: World, r: AddRequest, fact: Fact, now: int, f: Faults): (World, AddReply) {
    if r.id in w.rows then (w, AddRaised)
    else
      var displaced := Displaced(w.edges, r.user, fact);
      var w1 := AfterClose(w, displaced, now, f.close);
      if displaced.Some? && !Ok(f.close) then (w1, AddRaised)
      else
        var w2 := AfterCommit(t, w1, r, displaced, now, f.commit);
        if f.commit != Succeeds then (w2, AddRaised)
        else
          (WithEdges(w2, CreateFact(NewEdge(r, fact, now)), Copies(f.link)),
           if Ok(f.link) then Stored(r.id, NewRow(t, r, now), AddEvent(w1, r.id, NewRow(t, r, now), displaced), fact)
             else AddRaised)
  }

  function NoopStep(t: Text, w: World, r: AddRequest, f: Faults): (World, AddReply) {
    (if TakesEffect(f.commit) then w.(events := w.events + [NoopEvent(t, r)]) else w,
     if f.commit == Succeeds then NotStored(NoopEvent(t, r), NoopReason(t, r)) else AddRaised)
  }

  /** `MockMemoryBackend.add`. */
  function AddStep(t: Text, w: World, r: AddRequest, f: Faults): (World, AddReply) {
    var fact := FactOf(t, r);
    if fact.None? then NoopStep(t, Tick(w), r, f) else StoreStep(t, Tick(w), r, fact.value, w.clock, f)
  }

  /** `MockMemoryBackend.delete`. */
  function DeleteStep(w: World, id: Uuid, f: Faults): (World, DeleteReply) {
    var w0 := Tick(w);
    if id !in w.rows || !w.rows[id].active then (w0, NotDeleted)
    else
      var w1 := if TakesEffect(f.commit) then CommitDelete(w0, id) else w0;
      if f.commit != Succeeds then (w1, DeleteRaised)
      else
        (WithEdges(w1, CloseFact(id, w.clock), Copies(f.close)),
         if Ok(f.close) then DeletedRow(id, w1.rows[id], DeleteEvent(w0, id)) else DeleteRaised)
  }

  datatype Op = Add(request: AddRequest, faults: Faults) | Delete(id: Uuid, faults: Faults)

  function Step(t: Text, w: World, op: Op): World {
    match op
    case Add(r, f) => AddStep(t, w, r, f).0
    case Delete(id, f) => DeleteStep(w, id, f).0
  }

  /** Every state a sequential history of adds and deletes can reach, failures included. */
  function Run(t: Text, ops: seq<Op>): World {
    if ops == [] then Empty else Step(t, Run(t, ops[..|ops| - 1]), ops[|ops| - 1])
  }

  predicate Clean(op: Op) { op.faults == NoFaults }

  ghost predicate AllClean(ops: seq<Op>) {
    forall i :: 0 <= i < |ops| ==> Clean(ops[i])
  }

  /** Ranking returns given candidates, as many as fit, in descending score. */
  lemma RankKeepsCandidates(t: Text, q: string, cs: seq<Candidate>, g: set<Uuid>, k: nat)
    ensures
      var items := Rank(t, q, t.embed(q), cs, g, k);
      && |items| == (if |cs| <= k then |cs| else k)
      && (forall p :: 0 <= p < |items| ==> items[p].candidate in cs)
      && (forall p, r :: 0 <= p < r < |items| ==> items[p].score >= items[r].score)
  {
    var items, scores := Rank(t, q, t.embed(q), cs, g, k), Scores(ScoredAll(t, q, t.embed(q), cs, g));
    var sel := RankIsStableTopK(t, q, t.embed(q), cs, g, k);
    forall p, r | 0 <= p < r < |items| ensures items[p].score >= items[r].score {
      assert Before(scores, sel[p], sel[r]);
    }
  }

  class MockMemoryBackend {
    const t: Text
    const graph: Neo4jClient
    var rows: map<Uuid, Row>
    var order: seq<Uuid>
    var events: seq<Event>
    var clock: int

    constructor (t: Text, graph: Neo4jClient)
      requires graph.edges == []
      ensures this.t == t && this.graph == graph
      ensures Contents() == Empty
    {
      this.t, this.graph := t, graph;
      rows, order, events, clock := map[], [], [], 0;
    }

    function Contents(): World
      reads this, graph
    {
      World(rows, order, events, graph.edges, clock)
    }

    method Add(r: AddRequest, f: Faults) returns (reply: AddReply)
      modifies this, graph
      ensures (Contents(), reply) == AddStep(t, old(Contents()), r, f)
    {
      var now := clock;
      clock := clock + 1;
      var text := t.strip(r.text);
      var fact := if r.infer then t.extract(text) else None;
      if r.sarcasm || t.sarcastic(text) || fact.None? {
        var event := Event(None, Noop, None, Some(text));
        if TakesEffect(f.commit) {
          events := events + [event];
        }
        if f.commit != Succeeds {
          return AddRaised;
        }
        return NotStored(event, if r.sarcasm || t.sarcastic(text) then "sarcasm_or_no_fact" else "no_fact");
      }

      var oldFact := FindActive(graph.edges, r.user, fact.value.entity, fact.value.relation);
      var memory := Row(r.user, r.agentId, r.runId, text, t.embed(text), true, None, now);
      if r.id in rows {
        return AddRaised;
      }
      var pending := rows;
      var kind, oldContent := Added, None;
      if oldFact.Some? && oldFact.value.fact.obj != fact.value.obj {
        kind := Updated;
        var oldId := oldFact.value.memoryId;
        if oldId in rows {
          oldContent := Some(rows[oldId].content);
          pending := pending[oldId := pending[oldId].(active := false, supersededBy := Some(r.id))];
        }
        var closed := graph.RunWrite(CloseFact(oldId, now), f.close);
        if !closed {
          return AddRaised;
        }
      }
      var event := Event(Some(r.id), kind, oldContent, Some(text));
      if TakesEffect(f.commit) {
        rows, order, events := pending[r.id := memory], order + [r.id], events + [event];
      }
      if f.commit != Succeeds {
        return AddRaised;
      }
      var linked := graph.RunWrite(CreateFact(Edge(r.user, fact.value, r.id, now, None)), f.link);
      if !linked {
        return AddRaised;
      }
      return Stored(r.id, memory, event, fact.value);
    }

    method Delete(id: Uuid, f: Faults) returns (reply: DeleteReply)
      modifies this, graph
      ensures (Contents(), reply) == DeleteStep(old(Contents()), id, f)
    {
      var now := clock;
      clock := clock + 1;
      if id !in rows || !rows[id].active {
        return NotDeleted;
      }
      var memory := rows[id].(active := false);
      var event := Event(Some(id), Deleted, Some(rows[id].content), None);
      if TakesEffect(f.commit) {
        rows, events := rows[id := memory], events + [event];
      }
      if f.commit != Succeeds {
        return DeleteRaised;
      }
      var closed := graph.RunWrite(CloseFact(id, now), f.close);
      if !closed {
        return DeleteRaised;
      }
      return DeletedRow(id, memory, event);
    }

    /** `search`: read the newest active rows, build the candidates one by one, rank them. */
    method SearchFor(q: string, user: string, topK: int) returns (items: seq<Ranked>)
      ensures items == Search(t, Contents(), user, q, topK)
      ensures |items| <= ClampTopK(topK)
      ensures |items| == ClampTopK(topK) || |items| == |RecentIds(Contents(), user)|
      ensures forall p :: 0 <= p < |items| ==>
        var c := items[p].candidate;
        && ActiveFor(rows, c.id, user)
        && c.user == user && c.agentId == rows[c.id].agentId && c.runId == rows[c.id].runId
        && c.content == rows[c.id].content && c.embedding == rows[c.id].embedding
        && c.createdAt == rows[c.id].createdAt
      ensures forall p, r :: 0 <= p < r < |items| ==> items[p].score >= items[r].score
    {
      var records := RecentIds(Contents(), user);
      var candidates: seq<Candidate> := [];
      for i := 0 to |records|
        invariant |candidates| == i
        invariant forall j :: 0 <= j < i ==> candidates[j] == CandidateOf(records[j], rows[records[j]])
      {
        var memory := rows[records[i]];
        candidates := candidates + [Candidate(records[i], memory.user, memory.agentId, memory.runId,
                                              memory.content, memory.embedding, memory.createdAt)];
      }
      assert candidates == Candidates(Contents(), user);
      items := RankMemories(t, q, t.embed(q), candidates, GraphIds(t, graph.edges, user, q), ClampTopK(topK));
      RankKeepsCandidates(t, q, candidates, GraphIds(t, graph.edges, user, q), ClampTopK(topK));
    }
  }
}
