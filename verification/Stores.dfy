/** The two stores behind a memory backend: Postgres rows and audit events (app/db/models.py), and the temporal
    `RELATES_TO` edges in Neo4j.  A store write is atomic; nothing joins the two stores in one transaction. */
module Stores {
  import opened Domain
  import opened Retrieval

  datatype Row = Row(
    user: string, agentId: Option<string>, runId: Option<string>,
    content: string, embedding: seq<real>,
    active: bool, supersededBy: Option<Uuid>, createdAt: int)

  datatype EventKind = Added | Updated | Deleted | Noop

  datatype Event = Event(memoryId: Option<Uuid>, kind: EventKind, oldContent: Option<string>,
                         newContent: Option<string>)

  datatype Edge = Edge(user: string, fact: Fact, memoryId: Uuid, validFrom: int, validTo: Option<int>)

  /** `order` lists the row ids in the order they were committed; `clock` is the logical time of the next operation. */
  datatype World = World(rows: map<Uuid, Row>, order: seq<Uuid>, events: seq<Event>, edges: seq<Edge>, clock: int)

  const Empty := World(map[], [], [], [], 0)

  /* ---------- graph reads ---------- */

  predicate Open(e: Edge) { e.validTo.None? }

  predicate Answers(e: Edge, user: string, entity: string, relation: string) {
    Open(e) && e.user == user && e.fact.entity == entity && e.fact.relation == relation
  }

  /** `_find_active_fact`: a newest open edge for the key.  The query leaves ties open; here the later edge wins. */
  function FindActive(edges: seq<Edge>, user: string, entity: string, relation: string): (r: Option<Edge>)
    ensures r.None? ==> forall e :: e in edges ==> !Answers(e, user, entity, relation)
    ensures r.Some? ==> r.value in edges && Answers(r.value, user, entity, relation)
    ensures r.Some? ==> forall e :: e in edges && Answers(e, user, entity, relation) ==>
      e.validFrom <= r.value.validFrom
  {
    if edges == [] then None
    else
      var last := edges[|edges| - 1];
      assert edges == edges[..|edges| - 1] + [last];
      Newer(FindActive(edges[..|edges| - 1], user, entity, relation), last, user, entity, relation)
  }

  function Newer(best: Option<Edge>, e: Edge, user: string, entity: string, relation: string): Option<Edge> {
    if Answers(e, user, entity, relation) && (best.None? || best.value.validFrom <= e.validFrom) then Some(e) else best
  }

  /** `_graph_memory_ids_for_query`. */
  function GraphIds(t: Text, edges: seq<Edge>, user: string, q: string): set<Uuid> {
    set e | e in edges && Open(e) && e.user == user && t.lower(e.fact.entity) in t.queryEntities(q) :: e.memoryId
  }

  /* ---------- graph writes ---------- */

  datatype GraphWrite = CloseFact(id: Uuid, at: int) | CreateFact(edge: Edge) | DropUser(user: string)

  function Closed(e: Edge, id: Uuid, at: int): Edge {
    if e.memoryId == id && Open(e) then e.(validTo := Some(at)) else e
  }

  function CloseEdges(edges: seq<Edge>, id: Uuid, at: int): (r: seq<Edge>)
    ensures |r| == |edges|
    ensures forall i :: 0 <= i < |edges| ==> r[i] == Closed(edges[i], id, at)
  {
    seq(|edges|, i requires 0 <= i < |edges| => Closed(edges[i], id, at))
  }

  function DropEdges(edges: seq<Edge>, user: string): (r: seq<Edge>)
    ensures forall e :: e in r <==> e in edges && e.user != user
  {
    if edges == [] then []
    else
      var n := |edges| - 1;
      assert edges == edges[..n] + [edges[n]];
      DropEdges(edges[..n], user) + if edges[n].user == user then [] else [edges[n]]
  }

  function ApplyWrite(edges: seq<Edge>, g: GraphWrite): seq<Edge> {
    match g
    case CloseFact(id, at) => CloseEdges(edges, id, at)
    case CreateFact(e) => edges + [e]
    case DropUser(user) => DropEdges(edges, user)
  }

  function ApplyTimes(edges: seq<Edge>, g: GraphWrite, n: nat): seq<Edge> {
    if n == 0 then edges else ApplyWrite(ApplyTimes(edges, g, n - 1), g)
  }

  /* ---------- Postgres writes ---------- */

  /** The commit of an `add`: supersede the displaced row if it exists, insert the new row, log the event. */
  function CommitAdd(w: World, id: Uuid, row: Row, displaced: Option<Uuid>): World {
    var found := displaced.Some? && displaced.value in w.rows;
    var rows := if found then w.rows[displaced.value := w.rows[displaced.value].(active := false,
      supersededBy := Some(id))] else w.rows;
    w.(rows := rows[id := row],
       order := w.order + [id],
       events := w.events + [AddEvent(w, id, row, displaced)])
  }

  function AddEvent(w: World, id: Uuid, row: Row, displaced: Option<Uuid>): Event {
    Event(Some(id), if displaced.Some? then Updated else Added,
          if displaced.Some? && displaced.value in w.rows then Some(w.rows[displaced.value].content) else None,
          Some(row.content))
  }

  function CommitDelete(w: World, id: Uuid): World
    requires id in w.rows
  {
    w.(rows := w.rows[id := w.rows[id].(active := false)],
       events := w.events + [DeleteEvent(w, id)])
  }

  function DeleteEvent(w: World, id: Uuid): Event
    requires id in w.rows
  {
    Event(Some(id), Deleted, Some(w.rows[id].content), None)
  }

  /* ---------- search ---------- */

  predicate ActiveFor(rows: map<Uuid, Row>, id: Uuid, user: string) {
    id in rows && rows[id].user == user && rows[id].active
  }

  /** A user's active rows, oldest first. */
  function ActiveOf(order: seq<Uuid>, rows: map<Uuid, Row>, user: string): (r: seq<Uuid>)
    ensures |r| <= |order|
    ensures forall id :: id in r <==> id in order && ActiveFor(rows, id, user)
  {
    if order == [] then []
    else
      var n := |order| - 1;
      assert order == order[..n] + [order[n]];
      ActiveOf(order[..n], rows, user) + if ActiveFor(rows, order[n], user) then [order[n]] else []
  }

  function CandidateOf(id: Uuid, row: Row): Candidate {
    Candidate(id, row.user, row.agentId, row.runId, row.content, row.embedding, row.createdAt)
  }

  const CANDIDATE_LIMIT := 200

  function Reversed(s: seq<Uuid>): (r: seq<Uuid>)
    ensures |r| == |s|
    ensures forall i :: 0 <= i < |r| ==> r[i] == s[|s| - 1 - i]
    ensures forall x :: x in r <==> x in s
  {
    if s == [] then [] else [s[|s| - 1]] + Reversed(s[..|s| - 1])
  }

  /** The newest active rows of the user, newest first, at most 200 of them. */
  function RecentIds(w: World, user: string): (r: seq<Uuid>)
    ensures forall i :: 0 <= i < |r| ==> ActiveFor(w.rows, r[i], user)
  {
    var ids := Reversed(ActiveOf(w.order, w.rows, user));
    assert forall i :: 0 <= i < |ids| ==> ids[i] in ids;
    Take(ids, CANDIDATE_LIMIT)
  }

  function Candidates(w: World, user: string): (r: seq<Candidate>)
    ensures |r| == |RecentIds(w, user)|
    ensures forall i :: 0 <= i < |r| ==> r[i] == CandidateOf(RecentIds(w, user)[i], w.rows[RecentIds(w, user)[i]])
  {
    var ids := RecentIds(w, user);
    seq(|ids|, i requires 0 <= i < |ids| => CandidateOf(ids[i], w.rows[ids[i]]))
  }

  function ClampTopK(k: int): nat {
    if k < 1 then 1 else if k > 25 then 25 else k
  }

  /** `MockMemoryBackend.search`. */
  function Search(t: Text, w: World, user: string, q: string, topK: int): seq<Ranked> {
    Rank(t, q, t.embed(q), Candidates(w, user), GraphIds(t, w.edges, user, q), ClampTopK(topK))
  }
}
