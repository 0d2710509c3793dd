/** What one call of the Mem0 adapter does with Mem0's answer, said on the answer as it came. */
module Mem0Outcomes {
  import opened Domain
  import opened Stores
  import opened GraphClient
  import opened CrashSafety
  import opened Mem0Mirror

  /** The last thing Mem0 says about a memory; anything but an ADD, an UPDATE or a DELETE says nothing. */
  function LastWord(results: seq<Item>, id: Uuid): Option<Item> {
    if results == [] then None
    else
      var i := results[|results| - 1];
      if i.id == id && i.event in {"ADD", "UPDATE", "DELETE"} then Some(i) else LastWord(results[..|results| - 1], id)
  }

  /** How many results say something. */
  function Spoken(results: seq<Item>): nat {
    if results == [] then 0
    else
      var n := |results| - 1;
      Spoken(results[..n]) + if results[n].event in {"ADD", "UPDATE", "DELETE"} then 1 else 0
  }

  /** The content a result carries. */
  function Wording(t: Text, i: Item): string {
    t.strip(match i.memory case Some(text) => text case None => "")
  }

  /** An open edge states the fact of the content, for the calling user and since the row was made. */
  ghost predicate States(t: Text, edges: seq<Edge>, id: Uuid, content: string, user: string, since: int) {
    exists e ::
      && e in edges && e.memoryId == id && e.validTo.None? && t.extract(content) == Some(e.fact) && e.user == user
      && e.validFrom == since
  }

  ghost predicate NoOpenEdge(edges: seq<Edge>, id: Uuid) {
    forall e :: e in edges && e.memoryId == id ==> e.validTo.Some?
  }

  /** What must hold of a memory after the batch, given the last word on it. */
  ghost predicate Obeyed(t: Text, w: World, w': World, o: Owner, id: Uuid, last: Option<Item>) {
    match last
    case None =>
      && (id in w'.rows <==> id in w.rows)
      && (id in w.rows ==> w'.rows[id] == w.rows[id])
      && (forall e: Edge :: e.memoryId == id ==> (e in w'.edges <==> e in w.edges))
    case Some(i) =>
      if i.event == "DELETE" then
        && NoOpenEdge(w'.edges, id)
        && (id in w.rows ==> id in w'.rows)
        && (id in w'.rows ==> !w'.rows[id].active)
      else
        && id in w'.rows && w'.rows[id].active && w'.rows[id].content == Wording(t, i)
        && w'.rows[id].embedding == t.embed(Wording(t, i))
        && (t.extract(Wording(t, i)).Some? ==> States(t, w'.edges, id, Wording(t, i), o.user, w'.rows[id].createdAt))
        && (i.event == "UPDATE" && t.extract(Wording(t, i)).None? ==> NoOpenEdge(w'.edges, id))
  }

  /* ---------- one item ---------- */

  lemma DeleteItem(t: Text, w: World, i: Item, o: Owner)
    requires i.event == "DELETE"
    ensures
      var w' := MirrorItem(t, w, i, o);
      && NoOpenEdge(w'.edges, i.id) && (i.id in w.rows <==> i.id in w'.rows)
      && (i.id in w'.rows ==> !w'.rows[i.id].active)
  {
  }

  lemma WriteItem(t: Text, w: World, i: Item, o: Owner)
    requires i.event == "ADD" || i.event == "UPDATE"
    ensures
      var w' := MirrorItem(t, w, i, o);
      && i.id in w'.rows && w'.rows[i.id].active && w'.rows[i.id].content == Wording(t, i)
      && w'.rows[i.id].embedding == t.embed(Wording(t, i))
      && (t.extract(Wording(t, i)).Some? ==> States(t, w'.edges, i.id, Wording(t, i), o.user, w'.rows[i.id].createdAt))
      && (i.event == "UPDATE" && t.extract(Wording(t, i)).None? ==> NoOpenEdge(w'.edges, i.id))
  {
    var w' := MirrorItem(t, w, i, o);
    if t.extract(Wording(t, i)).Some? {
      var e := w'.edges[|w'.edges| - 1];
      assert e in w'.edges && e.memoryId == i.id;
    }
  }

  lemma OtherItem(t: Text, w: World, i: Item, o: Owner, id: Uuid)
    requires i.id != id
    ensures Obeyed(t, w, MirrorItem(t, w, i, o), o, id, None)
  {
    var w' := MirrorItem(t, w, i, o);
    var kept := if Closes(i) then CloseEdges(w.edges, i.id, w.clock) else w.edges;
    forall e: Edge | e.memoryId == id ensures e in kept <==> e in w.edges {
      if e in w.edges {
        var k :| 0 <= k < |w.edges| && w.edges[k] == e;
        assert kept[k] == e;
      }
      if e in kept {
        var k :| 0 <= k < |kept| && kept[k] == e;
        assert w.edges[k] == e;
      }
    }
  }

  lemma StatesKept(t: Text, a: seq<Edge>, b: seq<Edge>, id: Uuid, content: string, user: string, since: int)
    requires States(t, a, id, content, user, since)
    requires forall e: Edge :: e.memoryId == id ==> (e in b <==> e in a)
    ensures States(t, b, id, content, user, since)
  {
    var e :| e in a && e.memoryId == id && e.validTo.None? && t.extract(content) == Some(e.fact) && e.user == user
      && e.validFrom == since;
    assert e in b;
  }

  /** A further item about another memory keeps what was obeyed. */
  lemma ObeyedLater(t: Text, w: World, a: World, b: World, o: Owner, id: Uuid, last: Option<Item>)
    requires Obeyed(t, w, a, o, id, last) && Obeyed(t, a, b, o, id, None)
    ensures Obeyed(t, w, b, o, id, last)
  {
    if last.Some? && last.value.event != "DELETE" && t.extract(Wording(t, last.value)).Some? {
      StatesKept(t, a.edges, b.edges, id, Wording(t, last.value), o.user, a.rows[id].createdAt);
    }
  }

  lemma ItemObeyed(t: Text, w: World, a: World, i: Item, o: Owner, id: Uuid, last: Option<Item>)
    requires Obeyed(t, w, a, o, id, last) && i.event in {"ADD", "UPDATE", "DELETE"}
    requires last.Some? ==> last.value.event in {"ADD", "UPDATE", "DELETE"}
    ensures Obeyed(t, w, MirrorItem(t, a, i, o), o, id, if i.id == id then Some(i) else last)
  {
    if i.id != id {
      OtherItem(t, a, i, o, id);
      ObeyedLater(t, w, a, MirrorItem(t, a, i, o), o, id, last);
    } else if i.event == "DELETE" {
      DeleteItem(t, a, i, o);
    } else {
      WriteItem(t, a, i, o);
    }
  }

  /* ---------- a batch ---------- */

  lemma {:induction false} SpokenAreActionable(results: seq<Item>)
    ensures |ActionableItems(results)| == Spoken(results)
    ensures forall i :: i in ActionableItems(results) ==> i.event in {"ADD", "UPDATE", "DELETE"}
  {
    if results != [] { SpokenAreActionable(results[..|results| - 1]); }
  }

  /** `items` are the results at the places `at`. */
  ghost predicate Picks(results: seq<Item>, items: seq<Item>, at: seq<nat>) {
    && |at| == |items| && (forall k :: 0 <= k < |at| ==> at[k] < |results| && results[at[k]] == items[k])
    && (forall j, k :: 0 <= j < k < |at| ==> at[j] < at[k])
  }

  ghost predicate AllSpoken(results: seq<Item>, at: seq<nat>) {
    forall p: nat :: p < |results| ==> (p in at <==> results[p].event in {"ADD", "UPDATE", "DELETE"})
  }

  lemma PicksPush(front: seq<Item>, last: Item, items: seq<Item>, at: seq<nat>)
    requires Picks(front, items, at)
    ensures Picks(front + [last], items, at) && Picks(front + [last], items + [last], at + [|front|])
  {
  }

  lemma AllSpokenPush(front: seq<Item>, last: Item, at: seq<nat>)
    requires AllSpoken(front, at) && forall k :: 0 <= k < |at| ==> at[k] < |front|
    ensures AllSpoken(front + [last], if Actionable(last) then at + [|front|] else at)
  {
    var all, at' := front + [last], if Actionable(last) then at + [|front|] else at;
    forall p: nat | p < |all| ensures p in at' <==> all[p].event in {"ADD", "UPDATE", "DELETE"} {
      if p < |front| { assert p in at' <==> p in at; }
    }
  }

  /** The items mirrored are the results that say something, in Mem0's order. */
  lemma {:induction false} ActionableInOrder(results: seq<Item>) returns (at: seq<nat>)
    ensures Picks(results, ActionableItems(results), at) && AllSpoken(results, at)
  {
    at := [];
    if results != [] {
      var n := |results| - 1;
      at := ActionableInOrder(results[..n]);
      assert results == results[..n] + [results[n]];
      PicksPush(results[..n], results[n], ActionableItems(results[..n]), at);
      AllSpokenPush(results[..n], results[n], at);
      if Actionable(results[n]) { at := at + [n]; }
    }
  }

  lemma {:induction false} LastWordSpeaks(results: seq<Item>, id: Uuid)
    ensures LastWord(results, id).Some? ==> LastWord(results, id).value.event in {"ADD", "UPDATE", "DELETE"}
  {
    if results != [] { LastWordSpeaks(results[..|results| - 1], id); }
  }

  function After(t: Text, w: World, results: seq<Item>, o: Owner): World {
    Play(t, w, Mirrors(ActionableItems(results), o))
  }

  lemma AfterSilent(t: Text, w: World, results: seq<Item>, o: Owner)
    requires results != [] && results[|results| - 1].event !in {"ADD", "UPDATE", "DELETE"}
    ensures After(t, w, results, o) == After(t, w, results[..|results| - 1], o)
  {
    assert !Actionable(results[|results| - 1]);
    var front := ActionableItems(results[..|results| - 1]);
    assert ActionableItems(results) == front;
  }

  lemma AfterSpoken(t: Text, w: World, results: seq<Item>, o: Owner)
    requires results != [] && results[|results| - 1].event in {"ADD", "UPDATE", "DELETE"}
    ensures After(t, w, results, o) ==
      MirrorItem(t, After(t, w, results[..|results| - 1], o), results[|results| - 1], o)
  {
    var front, i := ActionableItems(results[..|results| - 1]), results[|results| - 1];
    assert ActionableItems(results) == front + [i];
    assert (front + [i])[..|front|] == front && (front + [i])[..|front| + 1] == front + [i];
    MirrorNext(t, w, front + [i], |front|, o);
  }

  lemma {:induction false} BatchObeyed(t: Text, w: World, results: seq<Item>, o: Owner, id: Uuid)
    ensures Obeyed(t, w, After(t, w, results, o), o, id, LastWord(results, id))
  {
    if results == [] {
      assert After(t, w, [], o) == w;
    } else {
      var front, i := results[..|results| - 1], results[|results| - 1];
      BatchObeyed(t, w, front, o, id);
      LastWordSpeaks(front, id);
      if i.event in {"ADD", "UPDATE", "DELETE"} {
        AfterSpoken(t, w, results, o);
        ItemObeyed(t, w, After(t, w, front, o), i, o, id, LastWord(front, id));
      } else {
        AfterSilent(t, w, results, o);
      }
    }
  }

  /** Whose memory it is and since when is settled by its first mirroring. */
  ghost predicate OwnerKept(w: World, w': World, o: Owner, id: Uuid) {
    && (id in w.rows ==> id in w'.rows)
    && (id in w'.rows ==>
          var row := w'.rows[id];
          if id in w.rows then
            && row.user == w.rows[id].user && row.agentId == w.rows[id].agentId && row.runId == w.rows[id].runId
            && row.createdAt == w.rows[id].createdAt && row.supersededBy == w.rows[id].supersededBy
          else
            && row.user == o.user && row.agentId == o.agentId && row.runId == o.runId && row.createdAt == w.clock
            && row.supersededBy.None?)
  }

  lemma ItemKeepsOwner(t: Text, w: World, a: World, i: Item, o: Owner, id: Uuid)
    requires OwnerKept(w, a, o, id) && a.clock == w.clock
    ensures OwnerKept(w, MirrorItem(t, a, i, o), o, id) && MirrorItem(t, a, i, o).clock == w.clock
  {
  }

  lemma {:induction false} BatchKeepsOwner(t: Text, w: World, results: seq<Item>, o: Owner, id: Uuid)
    ensures OwnerKept(w, After(t, w, results, o), o, id) && After(t, w, results, o).clock == w.clock
  {
    if results == [] {
      assert After(t, w, [], o) == w;
    } else {
      var front, i := results[..|results| - 1], results[|results| - 1];
      BatchKeepsOwner(t, w, front, o, id);
      if i.event in {"ADD", "UPDATE", "DELETE"} {
        AfterSpoken(t, w, results, o);
        ItemKeepsOwner(t, w, After(t, w, front, o), i, o, id);
      } else {
        AfterSilent(t, w, results, o);
      }
    }
  }

  /** Edges stay where they are; an open one may end at the moment of the call. */
  ghost predicate EdgesAge(a: seq<Edge>, b: seq<Edge>, now: int) {
    |a| <= |b| && forall k :: 0 <= k < |a| ==> b[k] == a[k] || (a[k].validTo.None? && b[k] == Ended(a[k], now))
  }

  function Ended(e: Edge, now: int): Edge { Edge(e.user, e.fact, e.memoryId, e.validFrom, Some(now)) }

  lemma ItemAgesEdges(t: Text, a: seq<Edge>, w: World, i: Item, o: Owner)
    requires EdgesAge(a, w.edges, w.clock)
    ensures EdgesAge(a, MirrorItem(t, w, i, o).edges, w.clock)
  {
    var kept := if Closes(i) then CloseEdges(w.edges, i.id, w.clock) else w.edges;
    assert EdgesAge(a, kept, w.clock);
    assert kept <= MirrorItem(t, w, i, o).edges;
  }

  lemma {:induction false} BatchAgesEdges(t: Text, w: World, results: seq<Item>, o: Owner)
    ensures After(t, w, results, o).clock == w.clock && EdgesAge(w.edges, After(t, w, results, o).edges, w.clock)
  {
    if results == [] {
      assert After(t, w, [], o) == w;
    } else {
      var front, i := results[..|results| - 1], results[|results| - 1];
      BatchAgesEdges(t, w, front, o);
      if i.event in {"ADD", "UPDATE", "DELETE"} {
        AfterSpoken(t, w, results, o);
        ItemAgesEdges(t, w.edges, After(t, w, front, o), i, o);
      } else {
        AfterSilent(t, w, results, o);
      }
    }
  }

  ghost predicate Extends(w: World, w': World, n: nat) {
    && w.events <= w'.events && |w'.events| == |w.events| + n
    && forall k :: |w.events| <= k < |w'.events| ==> w'.events[k].kind != Noop
  }

  lemma {:induction false} BatchLogs(t: Text, w: World, results: seq<Item>, o: Owner)
    ensures Extends(w, After(t, w, results, o), Spoken(results))
  {
    if results == [] {
      assert After(t, w, [], o) == w;
    } else {
      BatchLogs(t, w, results[..|results| - 1], o);
      if results[|results| - 1].event in {"ADD", "UPDATE", "DELETE"} {
        AfterSpoken(t, w, results, o);
      } else {
        AfterSilent(t, w, results, o);
      }
    }
  }

  /** Nothing of what Mem0 says about any memory. */
  predicate Silent(results: seq<Item>) {
    forall i :: i in results ==> i.event !in {"ADD", "UPDATE", "DELETE"}
  }

  lemma {:induction false} SilentIffNoneSpoken(results: seq<Item>)
    ensures Silent(results) <==> Spoken(results) == 0
  {
    if results != [] {
      var n := |results| - 1;
      SilentIffNoneSpoken(results[..n]);
      assert results == results[..n] + [results[n]];
    }
  }

  lemma PlayThenEnd(t: Text, w: World, ms: seq<Micro>)
    ensures Play(t, w, ms + [EndCall]) == Play(t, w, ms).(clock := Play(t, w, ms).clock + 1)
  {
    assert (ms + [EndCall])[..|ms|] == ms;
  }

  /** A batch without failures: for every memory the last ADD, UPDATE or DELETE about it is obeyed, a memory Mem0
      says nothing of is untouched, and the log grows by one entry per such result, or by one NOOP record if there is
      none. */
  lemma AnswerIsObeyed(t: Text, w: World, text: string, o: Owner, results: seq<Item>, faults: BatchFaults, id: Uuid)
    requires !t.sarcastic(t.strip(text)) && NeverFails(faults, |results|)
    ensures
      var (w', ok) := AddCallStep(t, w, text, false, o, results, faults, Succeeds);
      && ok && Obeyed(t, w, w', o, id, LastWord(results, id)) && OwnerKept(w, w', o, id)
      && EdgesAge(w.edges, w'.edges, w.clock)
      && if Silent(results) then w'.events == w.events + [Event(None, Noop, None, Some(t.strip(text)))]
         else Extends(w, w', Spoken(results))
  {
    SpokenAreActionable(results);
    SpokenFewer(results);
    SilentIffNoneSpoken(results);
    CleanAddIsPlay(t, w, text, false, o, results, faults);
    BatchObeyed(t, w, results, o, id);
    BatchKeepsOwner(t, w, results, o, id);
    BatchAgesEdges(t, w, results, o);
    BatchLogs(t, w, results, o);
    if Silent(results) {
      assert ActionableItems(results) == [];
      assert After(t, w, results, o) == w;
      PlayTwo(t, w, Note(t.strip(text)), EndCall);
    } else {
      PlayThenEnd(t, w, Mirrors(ActionableItems(results), o));
    }
  }

  lemma {:induction false} SpokenFewer(results: seq<Item>)
    ensures Spoken(results) <= |results|
  {
    if results != [] { SpokenFewer(results[..|results| - 1]); }
  }

  /** A sarcastic text never reaches Mem0: whatever it would have answered, rows and graph stay, and the commit leaves
      one NOOP record. */
  lemma SarcasmIsNotMirrored(t: Text, w: World, text: string, sarcasm: bool, o: Owner, results: seq<Item>,
                             faults: BatchFaults, commit: Attempt)
    requires sarcasm || t.sarcastic(t.strip(text))
    ensures
      var (w', ok) := AddCallStep(t, w, text, sarcasm, o, results, faults, commit);
      && w'.rows == w.rows && w'.order == w.order && w'.edges == w.edges && ok == (commit == Succeeds)
      && w'.events == if commit == FailsBefore then w.events
                      else w.events + [Event(None, Noop, None, Some(t.strip(text)))]
  {
  }

  function NoFaultAt(k: nat): ItemFaults { NoItemFaults }

  /** Rows and log take all of a batch or none of it, whatever fails in between; the graph is not part of that. */
  lemma AddIsAtomic(t: Text, w: World, text: string, sarcasm: bool, o: Owner, results: seq<Item>, faults: BatchFaults,
                    commit: Attempt)
    ensures
      var (w', ok) := AddCallStep(t, w, text, sarcasm, o, results, faults, commit);
      var clean, none := AddCallStep(t, w, text, sarcasm, o, results, NoFaultAt, Succeeds).0, w.(clock := w.clock + 1);
      && (SameTables(w', clean) || SameTables(w', none))
      && (ok ==> commit == Succeeds && SameTables(w', clean))
      && (commit == FailsBefore ==> SameTables(w', none))
  {
    CleanAddIsPlay(t, w, text, sarcasm, o, results, NoFaultAt);
    var items := ActionableItems(results);
    if IsNoop(t, text, sarcasm, results) {
      PlayTwo(t, w, Note(t.strip(text)), EndCall);
    } else {
      PlayThenEnd(t, w, Mirrors(items, o));
      if MirrorMany(MirrorsBy(t, o, faults), w, items, |items|).1 {
        MirrorTracksTables(t, o, faults);
        BatchTables(MirrorsBy(t, o, faults), t, w, items, o, |items|);
        assert items[..|items|] == items;
      }
    }
  }

  /** `delete` retires an active row, logs its content and ends its open edges; any other memory it leaves alone. */
  lemma DeleteIsObeyed(w: World, id: Uuid, commit: Attempt, close: Attempts, other: Uuid, i: nat)
    requires other in w.rows && i < |w.edges|
    ensures
      var (w', ok) := DeleteCallStep(w, id, commit, close);
      if id !in w.rows || !w.rows[id].active then ok && w' == w.(clock := w.clock + 1)
      else
        && (ok <==> commit == Succeeds && Ok(close))
        && w'.order == w.order && w'.rows.Keys == w.rows.Keys && |w'.edges| == |w.edges|
        && (commit == FailsBefore ==> w'.rows == w.rows && w'.events == w.events)
        && (commit != FailsBefore ==>
              && w'.rows[other] == (if other == id then w.rows[id].(active := false) else w.rows[other])
              && w'.events == w.events + [Event(Some(id), Deleted, Some(w.rows[id].content), None)])
        && (commit != Succeeds ==> w'.edges == w.edges)
        && (ok ==> w'.edges[i] == if w.edges[i].memoryId == id && w.edges[i].validTo.None?
                                  then Ended(w.edges[i], w.clock) else w.edges[i])
  {
    CloseTimes(w.edges, id, w.clock, Copies(close));
  }

  /** The memory has a row once item `k` is mirrored. */
  ghost predicate HasRow(t: Text, w: World, items: seq<Item>, o: Owner, k: nat)
    requires k < |items|
  {
    items[k].id in Play(t, w, Mirrors(items[..k + 1], o)).rows
  }

  lemma LastHasRow(t: Text, w: World, items: seq<Item>, o: Owner)
    requires items != []
    ensures
      var n := |items| - 1;
      HasRow(t, w, items, o, n) <==>
        items[n].event != "DELETE" || items[n].id in Play(t, w, Mirrors(items[..n], o)).rows
  {
    MirrorNext(t, w, items, |items| - 1, o);
    MirrorKeepsRow(t, Play(t, w, Mirrors(items[..|items| - 1], o)), items[|items| - 1], o);
  }

  lemma MirrorKeepsRow(t: Text, w: World, i: Item, o: Owner)
    ensures i.id in MirrorItem(t, w, i, o).rows <==> i.event != "DELETE" || i.id in w.rows
  {
  }

  lemma FrontHasRow(t: Text, w: World, items: seq<Item>, o: Owner, k: nat)
    requires k < |items| - 1
    ensures HasRow(t, w, items, o, k) <==> HasRow(t, w, items[..|items| - 1], o, k)
  {
    assert items[..|items| - 1][..k + 1] == items[..k + 1];
  }

  ghost predicate FirstWithRow(t: Text, w: World, items: seq<Item>, o: Owner, k: nat)
    requires k < |items|
  {
    HasRow(t, w, items, o, k) && forall j :: 0 <= j < k ==> !HasRow(t, w, items, o, j)
  }

  lemma FirstStays(t: Text, w: World, items: seq<Item>, o: Owner, k: nat)
    requires k < |items| - 1 && FirstWithRow(t, w, items[..|items| - 1], o, k)
    ensures FirstWithRow(t, w, items, o, k)
  {
    forall j | 0 <= j <= k ensures HasRow(t, w, items, o, j) <==> HasRow(t, w, items[..|items| - 1], o, j) {
      FrontHasRow(t, w, items, o, j);
    }
  }

  ghost predicate NoneHasRow(t: Text, w: World, items: seq<Item>, o: Owner, n: nat)
    requires n <= |items|
  {
    forall k :: 0 <= k < n ==> !HasRow(t, w, items, o, k)
  }

  lemma NoneStays(t: Text, w: World, items: seq<Item>, o: Owner)
    requires items != [] && NoneHasRow(t, w, items[..|items| - 1], o, |items| - 1)
    ensures NoneHasRow(t, w, items, o, |items| - 1)
  {
    forall k | 0 <= k < |items| - 1 ensures !HasRow(t, w, items, o, k) {
      FrontHasRow(t, w, items, o, k);
    }
  }

  /** The memory an `add` reports is that of the first mirrored item that has a row afterwards. */
  lemma {:induction false} ReportsTheFirst(t: Text, w: World, items: seq<Item>, o: Owner)
    ensures
      match Primary(t, w, items, o)
      case None => NoneHasRow(t, w, items, o, |items|)
      case Some(id) => exists k :: 0 <= k < |items| && items[k].id == id && FirstWithRow(t, w, items, o, k)
  {
    if items != [] {
      var n := |items| - 1;
      ReportsTheFirst(t, w, items[..n], o);
      LastHasRow(t, w, items, o);
      var first := Primary(t, w, items[..n], o);
      if first.Some? {
        var k :| 0 <= k < n && items[..n][k].id == first.value && FirstWithRow(t, w, items[..n], o, k);
        FirstStays(t, w, items, o, k);
      } else {
        NoneStays(t, w, items, o);
        if HasRow(t, w, items, o, n) { assert FirstWithRow(t, w, items, o, n); }
      }
    }
  }
}
