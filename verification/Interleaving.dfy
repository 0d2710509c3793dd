/** Adds and deletes running side by side, each stopping anywhere: supersede chains still end, in the user's own
    rows. */
module Interleaving {
  import opened Domain
  import opened Stores
  import opened GraphClient
  import opened MockBackend
  import opened CrashSafety

  /** How far one operation has come.  Its next store access is the one the constructor announces. */
  datatype Task =
    | ToFlush(r: AddRequest, fact: Fact, displaced: Option<Uuid>)
    | ToClose(r: AddRequest, fact: Fact, closing: Uuid, row: Row)
    | ToCommit(r: AddRequest, fact: Fact, displaced: Option<Uuid>, row: Row)
    | ToLink(edge: Edge)
    | ToCommitDelete(id: Uuid, at: int)
    | ToCloseDeleted(id: Uuid, at: int)

  datatype System = System(w: World, tasks: map<nat, Task>)

  /** `copies` is how often the store write of the move takes effect; without `ok` the operation ends there. */
  datatype Move =
    | BeginAdd(task: nat, r: AddRequest)
    | BeginDelete(task: nat, id: Uuid)
    | Advance(task: nat, copies: nat, ok: bool)

  /** The state after a task's next store access, and what remains of the task. */
  function Progress(t: Text, w: World, task: Task, copies: nat): (World, Option<Task>) {
    match task
    case ToFlush(r, fact, displaced) =>
      var row := NewRow(t, r, w.clock);
      var next := if displaced.Some? then ToClose(r, fact, displaced.value, row) else ToCommit(r, fact, None, row);
      (w, if r.id in w.rows then None else Some(next))
    case ToClose(r, fact, displaced, row) =>
      (WithEdges(w, CloseFact(displaced, row.createdAt), copies), Some(ToCommit(r, fact, Some(displaced), row)))
    case ToCommit(r, fact, displaced, row) =>
      if r.id in w.rows then (w, None)
      else if copies == 0 then (w, None)
      else (CommitAdd(w, r.id, row, displaced), Some(ToLink(NewEdge(r, fact, row.createdAt))))
    case ToLink(edge) =>
      (WithEdges(w, CreateFact(edge), copies), None)
    case ToCommitDelete(id, at) =>
      if id in w.rows && copies > 0 then (CommitDelete(w, id), Some(ToCloseDeleted(id, at))) else (w, None)
    case ToCloseDeleted(id, at) =>
      (WithEdges(w, CloseFact(id, at), copies), None)
  }

  function MoveStep(t: Text, s: System, m: Move): System {
    match m
    case BeginAdd(task, r) =>
      var fact := FactOf(t, r);
      if task in s.tasks then s
      else if fact.None? then s.(w := Tick(s.w.(events := s.w.events + [NoopEvent(t, r)])))
      else System(Tick(s.w), s.tasks[task := ToFlush(r, fact.value, Displaced(s.w.edges, r.user, fact.value))])
    case BeginDelete(task, id) =>
      if task in s.tasks || id !in s.w.rows || !s.w.rows[id].active then s
      else System(Tick(s.w), s.tasks[task := ToCommitDelete(id, s.w.clock)])
    case Advance(task, copies, ok) =>
      if task !in s.tasks then s
      else
        var (w', rest) := Progress(t, s.w, s.tasks[task], copies);
        System(Tick(w'), if ok && rest.Some? then s.tasks[task := rest.value] else s.tasks - {task})
  }

  function Interleave(t: Text, moves: seq<Move>): System {
    if moves == [] then System(Empty, map[]) else MoveStep(t, Interleave(t, moves[..|moves| - 1]), moves[|moves| - 1])
  }

  /** A lone task carried to its end is exactly the sequential `add`, whatever fails. */
  lemma SoloAddIsSequential(t: Text, w: World, r: AddRequest, fact: Fact, f: Faults)
    requires FactOf(t, r) == Some(fact)
    ensures
      var begun := MoveStep(t, System(w, map[]), BeginAdd(0, r));
      var flushed := MoveStep(t, begun, Advance(0, 0, true));
      var closed := if Displaced(w.edges, r.user, fact).Some?
        then MoveStep(t, flushed, Advance(0, Copies(f.close), Ok(f.close))) else flushed;
      var committed := MoveStep(t, closed, Advance(0, if TakesEffect(f.commit) then 1 else 0, f.commit == Succeeds));
      var linked := MoveStep(t, committed, Advance(0, Copies(f.link), Ok(f.link)));
      linked.tasks == map[] && linked.w == StoreStep(t, w, r, fact, w.clock + 1, f).0.(clock := linked.w.clock)
  {
    var begun := MoveStep(t, System(w, map[]), BeginAdd(0, r));
    var flushed := MoveStep(t, begun, Advance(0, 0, true));
    var displaced := Displaced(w.edges, r.user, fact);
    var row := NewRow(t, r, w.clock + 1);
    if r.id in w.rows {
      assert flushed.tasks == map[];
    } else {
      var closed := if displaced.Some? then MoveStep(t, flushed, Advance(0, Copies(f.close), Ok(f.close))) else flushed;
      assert flushed.tasks == map[0 := if displaced.Some? then ToClose(r, fact, displaced.value, row)
        else ToCommit(r, fact, None, row)];
      assert closed.w == AfterClose(w, displaced, w.clock + 1, f.close).(clock := closed.w.clock);
      if displaced.Some? && !Ok(f.close) {
        assert closed.tasks == map[];
      } else {
        assert closed.tasks == map[0 := ToCommit(r, fact, displaced, row)];
        SoloTail(t, closed, r, fact, row, displaced, f);
      }
    }
  }

  /** The end of a lone task: commit, then link. */
  lemma SoloTail(t: Text, s: System, r: AddRequest, fact: Fact, row: Row, displaced: Option<Uuid>, f: Faults)
    requires s.tasks == map[0 := ToCommit(r, fact, displaced, row)] && r.id !in s.w.rows
    ensures
      var committed := MoveStep(t, s, Advance(0, if TakesEffect(f.commit) then 1 else 0, f.commit == Succeeds));
      var linked := MoveStep(t, committed, Advance(0, Copies(f.link), Ok(f.link)));
      var target := if TakesEffect(f.commit) then CommitAdd(s.w, r.id, row, displaced) else s.w;
      linked.tasks == map[]
      && linked.w == (if f.commit == Succeeds
        then WithEdges(target, CreateFact(NewEdge(r, fact, row.createdAt)), Copies(f.link)) else target)
                       .(clock := linked.w.clock)
  {
  }

  /** ... and a lone delete the sequential `delete`. */
  lemma SoloDeleteIsSequential(t: Text, w: World, id: Uuid, f: Faults)
    ensures
      var begun := MoveStep(t, System(w, map[]), BeginDelete(0, id));
      var committed := MoveStep(t, begun, Advance(0, if TakesEffect(f.commit) then 1 else 0, f.commit == Succeeds));
      var closed := MoveStep(t, committed, Advance(0, Copies(f.close), Ok(f.close)));
      closed.tasks == map[] && closed.w == DeleteStep(w, id, f).0.(clock := closed.w.clock)
  {
    var begun := MoveStep(t, System(w, map[]), BeginDelete(0, id));
    var committed := MoveStep(t, begun, Advance(0, if TakesEffect(f.commit) then 1 else 0, f.commit == Succeeds));
    if id in w.rows && w.rows[id].active {
      assert begun.tasks == map[0 := ToCommitDelete(id, w.clock)];
      if f.commit == Succeeds {
        assert committed.tasks == map[0 := ToCloseDeleted(id, w.clock)];
        assert MoveStep(t, committed, Advance(0, Copies(f.close), Ok(f.close))).tasks == map[];
      } else {
        assert committed.tasks == map[];
      }
    }
  }

  ghost predicate Stamped(w: World) {
    forall id :: id in w.rows ==> w.rows[id].createdAt < w.clock
  }

  ghost predicate OlderRow(w: World, id: Uuid, user: string, before: int) {
    id in w.rows && w.rows[id].user == user && w.rows[id].createdAt < before
  }

  ghost predicate RowReady(t: Text, w: World, r: AddRequest, fact: Fact, row: Row) {
    row == NewRow(t, r, row.createdAt) && row.createdAt < w.clock && FactOf(t, r) == Some(fact)
  }

  ghost predicate TaskOk(t: Text, w: World, task: Task) {
    match task
    case ToFlush(r, fact, displaced) =>
      FactOf(t, r) == Some(fact) && (displaced.Some? ==> OlderRow(w, displaced.value, r.user, w.clock))
    case ToClose(r, fact, displaced, row) =>
      RowReady(t, w, r, fact, row) && OlderRow(w, displaced, r.user, row.createdAt)
    case ToCommit(r, fact, displaced, row) =>
      RowReady(t, w, r, fact, row) && (displaced.Some? ==> OlderRow(w, displaced.value, r.user, row.createdAt))
    case ToLink(edge) => Faithful(t, w.rows, edge)
    case ToCommitDelete(id, at) => id in w.rows
    case ToCloseDeleted(id, at) => id in w.rows
  }

  ghost predicate Sound(t: Text, s: System) {
    && Stamped(s.w) && AllFaithful(t, s.w) && AllForward(s.w)
    && forall k :: k in s.tasks ==> TaskOk(t, s.w, s.tasks[k])
  }

  /** What a row keeps for ever: its identity, and once inactive or superseded it stays so. */
  ghost predicate RowKept(before: Row, after: Row) {
    && after.user == before.user && after.content == before.content && after.createdAt == before.createdAt
    && (!before.active ==> !after.active)
    && (before.supersededBy.Some? ==> after.supersededBy.Some?)
  }

  ghost predicate Grows(w: World, w': World) {
    && w.clock <= w'.clock
    && forall id :: id in w.rows ==> id in w'.rows && RowKept(w.rows[id], w'.rows[id])
  }

  lemma GrowsKeepsTask(t: Text, w: World, w': World, task: Task)
    requires TaskOk(t, w, task) && Grows(w, w')
    ensures TaskOk(t, w', task)
  {
  }

  lemma EdgesStayFaithful(t: Text, w: World, w': World, g: GraphWrite, n: nat)
    requires AllFaithful(t, w) && Grows(w, w') && w'.edges == ApplyTimes(w.edges, g, n)
    requires g.CloseFact? || (g.CreateFact? && Faithful(t, w.rows, g.edge))
    ensures AllFaithful(t, w')
  {
    forall e | e in w'.edges ensures Faithful(t, w'.rows, e) {
      if g.CloseFact? {
        CloseTimes(w.edges, g.id, g.at, n);
        if n > 0 {
          var d := CloseOrigin(w.edges, g.id, g.at, e);
          assert Faithful(t, w.rows, d);
        } else {
          assert Faithful(t, w.rows, e);
        }
      } else {
        CreateTimes(w.edges, g.edge, n);
        assert Faithful(t, w.rows, e);
      }
    }
  }

  lemma CommitGrows(t: Text, w: World, r: AddRequest, row: Row, displaced: Option<Uuid>)
    requires Stamped(w) && AllFaithful(t, w) && AllForward(w) && r.id !in w.rows
    requires row == NewRow(t, r, row.createdAt) && row.createdAt < w.clock
    requires displaced.Some? ==> OlderRow(w, displaced.value, r.user, row.createdAt)
    ensures
      var w' := CommitAdd(w, r.id, row, displaced);
      Stamped(w') && AllFaithful(t, w') && AllForward(w') && Grows(w, w')
  {
  }

  lemma DeleteGrows(t: Text, w: World, id: Uuid)
    requires Stamped(w) && AllFaithful(t, w) && AllForward(w) && id in w.rows
    ensures
      var w' := CommitDelete(w, id);
      Stamped(w') && AllFaithful(t, w') && AllForward(w') && Grows(w, w')
  {
  }

  lemma ProgressSound(t: Text, w: World, task: Task, copies: nat)
    requires Stamped(w) && AllFaithful(t, w) && AllForward(w) && TaskOk(t, w, task)
    ensures
      var (w', rest) := Progress(t, w, task, copies);
      && Stamped(w') && AllFaithful(t, w') && AllForward(w') && Grows(w, w')
      && (rest.Some? ==> TaskOk(t, Tick(w'), rest.value))
  {
    var (w', rest) := Progress(t, w, task, copies);
    match task
    case ToFlush(r, fact, displaced) =>
    case ToClose(r, fact, displaced, row) =>
      EdgesStayFaithful(t, w, w', CloseFact(displaced, row.createdAt), copies);
      assert AllForward(w');
    case ToCommit(r, fact, displaced, row) =>
      if r.id !in w.rows && copies > 0 { CommitGrows(t, w, r, row, displaced); }
    case ToLink(edge) =>
      EdgesStayFaithful(t, w, w', CreateFact(edge), copies);
    case ToCommitDelete(id, at) =>
      if copies > 0 { DeleteGrows(t, w, id); }
    case ToCloseDeleted(id, at) =>
      EdgesStayFaithful(t, w, w', CloseFact(id, at), copies);
  }

  lemma DisplacedIsOlder(t: Text, w: World, r: AddRequest, fact: Fact)
    requires Stamped(w) && AllFaithful(t, w)
    ensures Displaced(w.edges, r.user, fact).Some?
      ==> OlderRow(w, Displaced(w.edges, r.user, fact).value, r.user, w.clock)
  {
  }

  lemma TickSound(t: Text, w: World)
    requires Stamped(w) && AllFaithful(t, w) && AllForward(w)
    ensures Stamped(Tick(w)) && AllFaithful(t, Tick(w)) && AllForward(Tick(w)) && Grows(w, Tick(w))
  {
  }

  lemma MoveSound(t: Text, s: System, m: Move)
    requires Sound(t, s)
    ensures Sound(t, MoveStep(t, s, m)) && Grows(s.w, MoveStep(t, s, m).w)
  {
    var s' := MoveStep(t, s, m);
    match m
    case BeginAdd(task, r) =>
      if FactOf(t, r).Some? { DisplacedIsOlder(t, s.w, r, FactOf(t, r).value); }
      TickSound(t, s.w);
    case BeginDelete(task, id) =>
      TickSound(t, s.w);
    case Advance(task, copies, ok) =>
      if task in s.tasks {
        ProgressSound(t, s.w, s.tasks[task], copies);
        TickSound(t, Progress(t, s.w, s.tasks[task], copies).0);
      }
    assert Grows(s.w, s'.w);
    forall k | k in s'.tasks ensures TaskOk(t, s'.w, s'.tasks[k]) {
      if k in s.tasks { GrowsKeepsTask(t, s.w, s'.w, s.tasks[k]); }
    }
    assert AllForward(s'.w) by {
      forall x | x in s'.w.rows ensures Forward(s'.w.rows, x) {
        if s'.w.rows == s.w.rows { assert Forward(s.w.rows, x); }
      }
    }
  }

  /** Every interleaving, every stopping point. */
  lemma {:induction false} InterleavingIsSound(t: Text, moves: seq<Move>)
    ensures Sound(t, Interleave(t, moves))
  {
    if moves != [] {
      InterleavingIsSound(t, moves[..|moves| - 1]);
      MoveSound(t, Interleave(t, moves[..|moves| - 1]), moves[|moves| - 1]);
    }
  }

  /** Nothing later revives an inactive row or un-supersedes one. */
  lemma {:induction false} NeverReactivated(t: Text, moves: seq<Move>, n: nat)
    requires n <= |moves|
    ensures Grows(Interleave(t, moves[..n]).w, Interleave(t, moves).w)
    decreases |moves| - n
  {
    if n == |moves| {
      assert moves[..n] == moves;
    } else {
      assert moves[..n + 1][..n] == moves[..n];
      InterleavingIsSound(t, moves[..n]);
      MoveSound(t, Interleave(t, moves[..n]), moves[n]);
      NeverReactivated(t, moves, n + 1);
      GrowsTransitive(Interleave(t, moves[..n]).w, Interleave(t, moves[..n + 1]).w, Interleave(t, moves).w);
    }
  }

  lemma GrowsTransitive(a: World, b: World, c: World)
    requires Grows(a, b) && Grows(b, c)
    ensures Grows(a, c)
  {
  }

  /** Following `superseded_by` from a row.  That this is well defined is the theorem: it ends, at a row nothing
      supersedes, and visits strictly newer rows of the same user on the way, all but the last of them inactive. */
  function Chain(w: World, id: Uuid): (c: seq<Uuid>)
    requires Stamped(w) && AllForward(w) && id in w.rows
    ensures |c| > 0 && c[0] == id
    ensures forall i :: 0 <= i < |c| ==> c[i] in w.rows && w.rows[c[i]].user == w.rows[id].user
    ensures forall i :: 0 <= i < |c| - 1 ==>
      w.rows[c[i]].supersededBy == Some(c[i + 1]) && !w.rows[c[i]].active
        && w.rows[c[i]].createdAt < w.rows[c[i + 1]].createdAt
    ensures w.rows[c[|c| - 1]].supersededBy.None?
    decreases w.clock - w.rows[id].createdAt
  {
    assert Forward(w.rows, id);
    if w.rows[id].supersededBy.None? then [id]
    else
      var next := w.rows[id].supersededBy.value;
      [id] + Chain(w, next)
  }

  /** The chain of every row in every interleaving. */
  lemma ChainsEnd(t: Text, moves: seq<Move>, id: Uuid) returns (c: seq<Uuid>)
    requires id in Interleave(t, moves).w.rows
    ensures
      var rows := Interleave(t, moves).w.rows;
      && |c| > 0 && c[0] == id
      && (forall i :: 0 <= i < |c| ==> c[i] in rows && rows[c[i]].user == rows[id].user)
      && (forall i, j :: 0 <= i < j < |c| ==> c[i] != c[j])
      && (forall i :: 0 <= i < |c| - 1 ==> rows[c[i]].supersededBy == Some(c[i + 1]) && !rows[c[i]].active)
      && rows[c[|c| - 1]].supersededBy.None?
  {
    InterleavingIsSound(t, moves);
    var w := Interleave(t, moves).w;
    c := Chain(w, id);
    ChainAscends(w, c);
  }

  lemma {:induction false} ChainAscends(w: World, c: seq<Uuid>)
    requires forall i :: 0 <= i < |c| ==> c[i] in w.rows
    requires forall i :: 0 <= i < |c| - 1 ==> w.rows[c[i]].createdAt < w.rows[c[i + 1]].createdAt
    ensures forall i, j :: 0 <= i < j < |c| ==> w.rows[c[i]].createdAt < w.rows[c[j]].createdAt
  {
    if |c| > 1 {
      var n := |c| - 1;
      ChainAscends(w, c[..n]);
      forall i | 0 <= i < n ensures w.rows[c[i]].createdAt < w.rows[c[n]].createdAt {
        assert c[..n][i] == c[i] && c[..n][n - 1] == c[n - 1];
        assert w.rows[c[n - 1]].createdAt < w.rows[c[n - 1 + 1]].createdAt;
      }
    }
  }
}
