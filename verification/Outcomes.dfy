/** What one call of the rule-based backend does, said in its caller's terms. */
module Outcomes {
  import opened Domain
  import opened Stores
  import opened GraphClient
  import opened MockBackend
  import opened CrashSafety
  import opened Coupling

  /* ---------- add ---------- */

  /** The request is flagged, sounds sarcastic, asks for no inference, or states no fact. */
  predicate Rejected(t: Text, r: AddRequest) {
    r.sarcasm || t.sarcastic(t.strip(r.text)) || !r.infer || t.extract(t.strip(r.text)).None?
  }

  function NoopRecord(t: Text, r: AddRequest): Event { Event(None, Noop, None, Some(t.strip(r.text))) }

  /** A rejected request never touches rows or graph; its commit leaves exactly one NOOP record of the stripped text. */
  lemma RejectedIsNotStored(t: Text, w: World, r: AddRequest, f: Faults)
    requires Rejected(t, r)
    ensures
      var (w', reply) := AddStep(t, w, r, f);
      && w'.rows == w.rows && w'.order == w.order && w'.edges == w.edges
      && w'.events == (if f.commit == FailsBefore then w.events else w.events + [NoopRecord(t, r)])
      && (f.commit == Succeeds ==> reply.NotStored? && reply.event == NoopRecord(t, r))
      && (f.commit == Succeeds ==>
            reply.reason == if r.sarcasm || t.sarcastic(t.strip(r.text)) then "sarcasm_or_no_fact" else "no_fact")
      && (f.commit != Succeeds ==> reply.AddRaised?)
  {
  }

  /** The row a stored request leaves. */
  ghost predicate RowOf(t: Text, r: AddRequest, row: Row, now: int) {
    && row.user == r.user && row.agentId == r.agentId && row.runId == r.runId
    && row.content == t.strip(r.text) && row.embedding == t.embed(t.strip(r.text))
    && row.active && row.supersededBy.None? && row.createdAt == now
  }

  /** The edge a stored request leaves. */
  ghost predicate EdgeOf(t: Text, r: AddRequest, e: Edge, now: int) {
    && e.user == r.user && t.extract(t.strip(r.text)) == Some(e.fact) && e.memoryId == r.id
    && e.validFrom == now && e.validTo.None?
  }

  /** Any other request with a fresh id is stored when nothing fails: one row, one edge, one event. */
  lemma AcceptedIsStored(t: Text, w: World, r: AddRequest)
    requires r.id !in w.rows
    ensures AddStep(t, w, r, NoFaults).1.Stored? <==> !Rejected(t, r)
    ensures !Rejected(t, r) ==>
      var (w', reply) := AddStep(t, w, r, NoFaults);
      && w'.order == w.order + [r.id] && w'.rows.Keys == w.rows.Keys + {r.id} && RowOf(t, r, w'.rows[r.id], w.clock)
      && |w'.edges| == |w.edges| + 1 && EdgeOf(t, r, w'.edges[|w.edges|], w.clock)
      && |w'.events| == |w.events| + 1 && w'.events[..|w.events|] == w.events
      && w'.events[|w.events|].memoryId == Some(r.id) && w'.events[|w.events|].newContent == Some(t.strip(r.text))
      && reply.id == r.id && reply.row == w'.rows[r.id] && reply.stored == w'.events[|w.events|]
      && t.extract(t.strip(r.text)) == Some(reply.fact)
  {
    if !Rejected(t, r) {
      StoreShape(t, Tick(w), r, FactOf(t, r).value, w.clock);
    }
  }

  /** A request whose drawn id is taken raises and leaves everything as it was. */
  lemma TakenIdRaises(t: Text, w: World, r: AddRequest, f: Faults)
    requires r.id in w.rows && !Rejected(t, r)
    ensures AddStep(t, w, r, f) == (w.(clock := w.clock + 1), AddRaised)
  {
  }

  /** The newest open edge of the request's key states another object. */
  ghost predicate Contradicts(t: Text, w: World, r: AddRequest, e: Edge) {
    t.extract(t.strip(r.text)).Some?
    && var fact := t.extract(t.strip(r.text)).value;
       FindActive(w.edges, r.user, fact.entity, fact.relation) == Some(e) && e.fact.obj != fact.obj
  }

  /** A contradicting request retires the memory it displaces, ends its edges at that moment and quotes its content;
      it changes no other row and no other edge. */
  lemma ContradictionDisplaces(t: Text, w: World, r: AddRequest, e: Edge, id: Uuid, i: nat)
    requires r.id !in w.rows && !Rejected(t, r) && Contradicts(t, w, r, e)
    requires id in w.rows && i < |w.edges|
    ensures
      var w' := AddStep(t, w, r, NoFaults).0;
      && id in w'.rows && |w'.edges| == |w.edges| + 1
      && w'.rows[id] == (if id == e.memoryId then w.rows[id].(active := false, supersededBy := Some(r.id))
                         else w.rows[id])
      && w'.edges[i] == (if w.edges[i].memoryId == e.memoryId && w.edges[i].validTo.None?
                         then w.edges[i].(validTo := Some(w.clock)) else w.edges[i])
      && w'.events[|w.events|].kind == Updated
      && (e.memoryId in w.rows ==> w'.events[|w.events|].oldContent == Some(w.rows[e.memoryId].content))
  {
    StoreShape(t, Tick(w), r, FactOf(t, r).value, w.clock);
  }

  /** Without a contradiction a stored request only adds. */
  lemma AgreementOnlyAdds(t: Text, w: World, r: AddRequest)
    requires r.id !in w.rows && !Rejected(t, r) && forall e :: !Contradicts(t, w, r, e)
    ensures
      var w' := AddStep(t, w, r, NoFaults).0;
      && (forall id :: id in w.rows ==> w'.rows[id] == w.rows[id])
      && w.edges <= w'.edges
      && w'.events[|w.events|].kind == Added && w'.events[|w.events|].oldContent.None?
  {
    StoreShape(t, Tick(w), r, FactOf(t, r).value, w.clock);
    var fact := FactOf(t, r).value;
    var newest := FindActive(w.edges, r.user, fact.entity, fact.relation);
    if newest.Some? { assert !Contradicts(t, w, r, newest.value); }
  }

  ghost predicate Conflicts(t: Text, w: World, r: AddRequest) {
    exists e :: e in w.edges && Contradicts(t, w, r, e)
  }

  /** What failures leave of such a request: an edge close that fails stops it before the commit, a commit that fails
      before the link, and it is stored only if all that it needed succeeded. */
  lemma FaultsCutShort(t: Text, w: World, r: AddRequest, f: Faults)
    requires r.id !in w.rows && !Rejected(t, r)
    ensures
      var (w', reply) := AddStep(t, w, r, f);
      var reached := Conflicts(t, w, r) ==> Ok(f.close);
      && (reply.Stored? <==> reached && f.commit == Succeeds && Ok(f.link))
      && (!reply.Stored? ==> reply.AddRaised?)
      && (r.id in w'.rows <==> reached && TakesEffect(f.commit))
      && (!(r.id in w'.rows) ==> w'.rows == w.rows && w'.order == w.order && w'.events == w.events)
      && (r.id in w'.rows ==> w'.rows == AddStep(t, w, r, NoFaults).0.rows)
      && (r.id in w'.rows ==> w'.events == AddStep(t, w, r, NoFaults).0.events)
      && |w'.edges| == |w.edges| + if reached && f.commit == Succeeds then Copies(f.link) else 0
  {
    ConflictIsDisplaced(t, w, r);
    StoreFaults(t, Tick(w), r, FactOf(t, r).value, w.clock, f);
    StoreFaults(t, Tick(w), r, FactOf(t, r).value, w.clock, NoFaults);
  }

  lemma StoreFaults(t: Text, w: World, r: AddRequest, fact: Fact, now: int, f: Faults)
    requires r.id !in w.rows
    ensures
      var (w', reply) := StoreStep(t, w, r, fact, now, f);
      var displaced := Displaced(w.edges, r.user, fact);
      var reached := displaced.Some? ==> Ok(f.close);
      var target := if reached && TakesEffect(f.commit) then CommitAdd(w, r.id, NewRow(t, r, now), displaced) else w;
      && (reply.Stored? <==> reached && f.commit == Succeeds && Ok(f.link))
      && (!reply.Stored? ==> reply.AddRaised?)
      && w'.rows == target.rows && w'.order == target.order && w'.events == target.events
      && |w'.edges| == |w.edges| + if reached && f.commit == Succeeds then Copies(f.link) else 0
  {
    var displaced := Displaced(w.edges, r.user, fact);
    if displaced.Some? { CloseTimes(w.edges, displaced.value, now, Copies(f.close)); }
    CreateTimes(AfterClose(w, displaced, now, f.close).edges, NewEdge(r, fact, now), Copies(f.link));
  }

  lemma ConflictIsDisplaced(t: Text, w: World, r: AddRequest)
    requires !Rejected(t, r)
    ensures Conflicts(t, w, r) <==> Displaced(w.edges, r.user, FactOf(t, r).value).Some?
  {
    var fact := FactOf(t, r).value;
    var newest := FindActive(w.edges, r.user, fact.entity, fact.relation);
    if newest.Some? && newest.value.fact.obj != fact.obj { assert Contradicts(t, w, r, newest.value); }
  }

  /* ---------- delete ---------- */

  /** A delete without failures retires the row, logs its content and ends its open edges at that moment. */
  lemma DeletedIsRetired(w: World, id: Uuid, other: Uuid, i: nat)
    requires other in w.rows && i < |w.edges|
    ensures DeleteStep(w, id, NoFaults).1.NotDeleted? <==> id !in w.rows || !w.rows[id].active
    ensures
      var (w', reply) := DeleteStep(w, id, NoFaults);
      if reply.NotDeleted? then w' == w.(clock := w.clock + 1)
      else
        && reply.DeletedRow? && reply.id == id && reply.row == w'.rows[id]
        && w'.order == w.order && w'.rows.Keys == w.rows.Keys
        && w'.rows[other] == (if other == id then w.rows[id].(active := false) else w.rows[other])
        && w'.events == w.events + [Event(Some(id), Deleted, Some(w.rows[id].content), None)]
        && reply.event == w'.events[|w.events|]
        && |w'.edges| == |w.edges|
        && w'.edges[i] == if w.edges[i].memoryId == id && w.edges[i].validTo.None?
                          then w.edges[i].(validTo := Some(w.clock)) else w.edges[i]
  {
    CloseTimes(w.edges, id, w.clock, 1);
  }

  /** With failures: a commit that fails leaves the edges alone, and only a delete that did everything is reported. */
  lemma FaultyDelete(w: World, id: Uuid, f: Faults)
    requires id in w.rows && w.rows[id].active
    ensures
      var (w', reply) := DeleteStep(w, id, f);
      var clean := DeleteStep(w, id, NoFaults).0;
      && (reply.DeletedRow? <==> f.commit == Succeeds && Ok(f.close)) && (!reply.DeletedRow? ==> reply.DeleteRaised?)
      && w'.rows == (if f.commit == FailsBefore then w.rows else clean.rows)
      && w'.events == (if f.commit == FailsBefore then w.events else clean.events)
      && (f.commit != Succeeds ==> w'.edges == w.edges)
      && (f.commit == Succeeds && Ok(f.close) ==> w'.edges == clean.edges)
  {
    CloseTimes(w.edges, id, w.clock, Copies(f.close));
    CloseTimes(w.edges, id, w.clock, 1);
  }

  /* ---------- retried links ---------- */

  /** A link that takes effect but is reported failed is tried again, and then there are two equal edges. */
  lemma LostReplyDuplicates(t: Text, r: AddRequest, e: Edge)
    requires !Rejected(t, r) && EdgeOf(t, r, e, 0)
    ensures
      var (w', reply) := AddStep(t, Empty, r, NoFaults.(link := Attempts(FailsAfter, Succeeds)));
      reply.Stored? && w'.edges == [e, e]
  {
    var fact := FactOf(t, r).value;
    assert NewEdge(r, fact, 0) == e;
    var g := CreateFact(e);
    assert ApplyTimes([], g, 0) == [] && ApplyTimes([], g, 1) == [] + [e] && ApplyTimes([], g, 2) == [] + [e] + [e];
  }

  /* ---------- time and audit ---------- */

  /** An edge holds for a positive stretch of the past, or since some moment of it. */
  ghost predicate Dated(e: Edge, now: int) {
    e.validFrom < now && (e.validTo.Some? ==> e.validFrom < e.validTo.value < now)
  }

  ghost predicate AllDated(edges: seq<Edge>, now: int) {
    forall e :: e in edges ==> Dated(e, now)
  }

  lemma CloseDated(edges: seq<Edge>, id: Uuid, at: int, n: nat)
    requires AllDated(edges, at)
    ensures AllDated(ApplyTimes(edges, CloseFact(id, at), n), at + 1)
  {
    CloseTimes(edges, id, at, n);
    if n > 0 {
      forall e | e in CloseEdges(edges, id, at) ensures Dated(e, at + 1) {
        var d := CloseOrigin(edges, id, at, e);
        assert Dated(d, at);
      }
    }
  }

  lemma CreateDated(edges: seq<Edge>, e: Edge, now: int, n: nat)
    requires AllDated(edges, now) && Dated(e, now)
    ensures AllDated(ApplyTimes(edges, CreateFact(e), n), now)
  {
    CreateTimes(edges, e, n);
  }

  lemma AddDated(t: Text, w: World, r: AddRequest, f: Faults)
    requires AllDated(w.edges, w.clock)
    ensures AllDated(AddStep(t, w, r, f).0.edges, w.clock + 1)
  {
    var fact := FactOf(t, r);
    if fact.Some? {
      var displaced := Displaced(w.edges, r.user, fact.value);
      if displaced.Some? { CloseDated(w.edges, displaced.value, w.clock, Copies(f.close)); }
      CreateDated(AfterClose(Tick(w), displaced, w.clock, f.close).edges, NewEdge(r, fact.value, w.clock), w.clock + 1,
                  Copies(f.link));
    }
  }

  /** In every history each edge holds for a positive stretch of time, ended by the call that closed it. */
  lemma {:induction false} RunIsDated(t: Text, ops: seq<Op>)
    ensures AllDated(Run(t, ops).edges, Run(t, ops).clock)
  {
    if ops != [] {
      var w := Run(t, ops[..|ops| - 1]);
      RunIsDated(t, ops[..|ops| - 1]);
      match ops[|ops| - 1]
      case Add(r, f) => AddDated(t, w, r, f);
      case Delete(id, f) => CloseDated(w.edges, id, w.clock, Copies(f.close));
    }
  }

  /** What an audit event says about the rows. */
  ghost predicate Told(rows: map<Uuid, Row>, e: Event) {
    match e.kind
    case Noop => e.memoryId.None? && e.oldContent.None? && e.newContent.Some?
    case Added =>
      && e.memoryId.Some? && e.memoryId.value in rows && e.oldContent.None?
      && e.newContent == Some(rows[e.memoryId.value].content)
      && forall d :: d in rows ==> rows[d].supersededBy != e.memoryId
    case Updated =>
      && e.memoryId.Some? && e.memoryId.value in rows && e.newContent == Some(rows[e.memoryId.value].content)
      && exists d :: d in rows && rows[d].supersededBy == e.memoryId && e.oldContent == Some(rows[d].content)
    case Deleted =>
      && e.memoryId.Some? && e.memoryId.value in rows && !rows[e.memoryId.value].active
      && e.oldContent == Some(rows[e.memoryId.value].content) && e.newContent.None?
  }

  ghost predicate AllTold(w: World) {
    forall e :: e in w.events ==> Told(w.rows, e)
  }

  /** What the rows may do without making an old event wrong. */
  ghost predicate RowsKept(rows: map<Uuid, Row>, rows': map<Uuid, Row>, id: Uuid) {
    && (forall x :: x in rows ==>
          && x in rows' && rows'[x].content == rows[x].content
          && (!rows[x].active ==> !rows'[x].active)
          && (rows'[x].supersededBy == rows[x].supersededBy
              || (rows[x].supersededBy.None? && rows'[x].supersededBy == Some(id))))
    && (forall x :: x in rows' && x !in rows ==> rows'[x].supersededBy.None?)
  }

  lemma StillTold(rows: map<Uuid, Row>, rows': map<Uuid, Row>, id: Uuid, e: Event)
    requires Told(rows, e) && RowsKept(rows, rows', id) && id !in rows
    ensures Told(rows', e)
  {
    if e.kind == Updated {
      var d :| d in rows && rows[d].supersededBy == e.memoryId && e.oldContent == Some(rows[d].content);
      assert d in rows' && rows'[d].supersededBy == e.memoryId;
    }
  }

  lemma CommitTold(w: World, id: Uuid, row: Row, displaced: Option<Uuid>)
    requires AllTold(w) && AllForward(w) && id !in w.rows && row.supersededBy.None?
    requires displaced.Some? ==> displaced.value in w.rows && w.rows[displaced.value].supersededBy.None?
    ensures AllTold(CommitAdd(w, id, row, displaced))
  {
    var w' := CommitAdd(w, id, row, displaced);
    forall x | x in w.rows ensures w.rows[x].supersededBy != Some(id) { assert Forward(w.rows, x); }
    forall e | e in w'.events ensures Told(w'.rows, e) {
      if e in w.events {
        StillTold(w.rows, w'.rows, id, e);
      } else if displaced.Some? {
        assert w'.rows[displaced.value].supersededBy == Some(id);
      }
    }
  }

  lemma StoreTold(t: Text, w: World, torn: set<Uuid>, r: AddRequest, fact: Fact, now: int, f: Faults)
    requires Safe(t, w, torn) && AllTold(w)
    ensures AllTold(StoreStep(t, w, r, fact, now, f).0)
  {
    var displaced := Displaced(w.edges, r.user, fact);
    if r.id !in w.rows { StoreFaults(t, w, r, fact, now, f); }
    if Lands(w, r, displaced, f) {
      DisplacedKnown(t, w, r.user, fact);
      if displaced.Some? {
        var newest := FindActive(w.edges, r.user, fact.entity, fact.relation).value;
        assert newest in w.edges && Open(newest) && newest.memoryId == displaced.value;
      }
      CommitTold(w, r.id, NewRow(t, r, now), displaced);
    }
  }

  predicate Lands(w: World, r: AddRequest, displaced: Option<Uuid>, f: Faults) {
    r.id !in w.rows && (displaced.Some? ==> Ok(f.close)) && TakesEffect(f.commit)
  }

  lemma DeleteTold(t: Text, w: World, id: Uuid, f: Faults)
    requires AllTold(w) && AllForward(w)
    ensures AllTold(DeleteStep(w, id, f).0)
  {
    if id in w.rows && w.rows[id].active && TakesEffect(f.commit) {
      var w' := CommitDelete(w, id);
      forall e | e in w'.events ensures Told(w'.rows, e) {
        if e in w.events {
          ToldAfterDelete(w.rows, w'.rows, id, e);
        }
      }
    }
  }

  lemma ToldAfterDelete(rows: map<Uuid, Row>, rows': map<Uuid, Row>, id: Uuid, e: Event)
    requires Told(rows, e) && id in rows && rows' == rows[id := rows[id].(active := false)]
    ensures Told(rows', e)
  {
    if e.kind == Updated {
      var d :| d in rows && rows[d].supersededBy == e.memoryId && e.oldContent == Some(rows[d].content);
      assert d in rows' && rows'[d].supersededBy == e.memoryId;
    }
  }

  lemma StepTold(t: Text, w: World, torn: set<Uuid>, op: Op)
    requires Safe(t, w, torn) && AllTold(w)
    ensures AllTold(Step(t, w, op))
  {
    match op
    case Add(r, f) =>
      if FactOf(t, r).Some? {
        TickedSafe(t, w, torn);
        StoreTold(t, Tick(w), torn, r, FactOf(t, r).value, w.clock, f);
      }
    case Delete(id, f) =>
      DeleteTold(t, w, id, f);
  }

  /** In every history, failures included, the audit log tells the truth: an ADD or UPDATE quotes the content of its
      row, an UPDATE also that of the row it superseded, and a DELETE that of the row it retired. */
  lemma {:induction false} AuditTellsTheTruth(t: Text, ops: seq<Op>)
    ensures AllTold(Run(t, ops))
  {
    if ops != [] {
      AuditTellsTheTruth(t, ops[..|ops| - 1]);
      RunIsSafe(t, ops[..|ops| - 1]);
      StepTold(t, Run(t, ops[..|ops| - 1]), Torn(t, ops[..|ops| - 1]), ops[|ops| - 1]);
    }
  }
}
