/** What a search shows: exactly when two states, or the states before and after an operation, answer it alike. */
module Visibility {
  import opened Domain
  import opened Retrieval
  import opened Stores
  import opened GraphClient
  import opened MockBackend
  import opened CrashSafety
  import opened Conservation
  import opened Frame
  import opened SearchOrder

  lemma RetrievedIsCandidate(t: Text, q: string, cs: seq<Candidate>, g: set<Uuid>, k: nat, p: nat) returns (j: nat)
    requires p < |Rank(t, q, t.embed(q), cs, g, k)|
    ensures j < |cs| && Rank(t, q, t.embed(q), cs, g, k)[p] == Scored(t, q, t.embed(q), cs[j], g)
  {
    var sel := RankIsStableTopK(t, q, t.embed(q), cs, g, k);
    j := sel[p];
  }

  lemma CandidateIsRetrieved(t: Text, q: string, cs: seq<Candidate>, g: set<Uuid>, k: nat, j: nat) returns (p: nat)
    requires |cs| <= k && j < |cs|
    ensures p < |Rank(t, q, t.embed(q), cs, g, k)|
      && Rank(t, q, t.embed(q), cs, g, k)[p] == Scored(t, q, t.embed(q), cs[j], g)
  {
    var items := ScoredAll(t, q, t.embed(q), cs, g);
    var order := StableOrder(Scores(items), |items|);
    assert j in order;
    p :| 0 <= p < |order| && order[p] == j;
  }

  /** A search returns only the user's active rows. */
  lemma RetrievedAreActive(t: Text, w: World, user: string, q: string, k: int)
    ensures forall id :: id in Ids(Search(t, w, user, q, k)) ==> ActiveFor(w.rows, id, user) && id in w.order
  {
    var cs, g := Candidates(w, user), GraphIds(t, w.edges, user, q);
    var found := Ids(Search(t, w, user, q, k));
    forall id | id in found ensures ActiveFor(w.rows, id, user) && id in w.order {
      var p :| 0 <= p < |found| && found[p] == id;
      var j := RetrievedIsCandidate(t, q, cs, g, ClampTopK(k), p);
      assert RecentIds(w, user)[j] == id;
      assert id in Reversed(ActiveOf(w.order, w.rows, user));
    }
  }

  /** It returns all of them when they fit. */
  lemma AllActiveRetrieved(t: Text, w: World, user: string, q: string, k: int, id: Uuid)
    requires |ActiveOf(w.order, w.rows, user)| <= ClampTopK(k)
    requires id in w.order && ActiveFor(w.rows, id, user)
    ensures id in Ids(Search(t, w, user, q, k))
  {
    var cs, g := Candidates(w, user), GraphIds(t, w.edges, user, q);
    var recent := RecentIds(w, user);
    assert id in Reversed(ActiveOf(w.order, w.rows, user));
    var j :| 0 <= j < |recent| && recent[j] == id;
    var p := CandidateIsRetrieved(t, q, cs, g, ClampTopK(k), j);
    assert Ids(Search(t, w, user, q, k))[p] == id;
  }

  /** It returns as many as asked for, at least one and at most 25, unless the user has fewer. */
  lemma SearchCount(t: Text, w: World, user: string, q: string, k: int)
    ensures |Search(t, w, user, q, k)| <= 25 && (k >= 1 ==> |Search(t, w, user, q, k)| <= k)
    ensures |Search(t, w, user, q, k)| < |ActiveOf(w.order, w.rows, user)| ==>
      |Search(t, w, user, q, k)| == if k < 1 then 1 else if k > 25 then 25 else k
  {
  }

  /** An open edge of the user is about an entity of the query. */
  ghost predicate Mentions(t: Text, e: Edge, user: string, q: string) {
    e.validTo.None? && e.user == user && t.lower(e.fact.entity) in t.queryEntities(q)
  }

  /** What each result of a search reports: its row, the similarity of the query's embedding to the row's, the share of
      query tokens, and a mark when an open edge of the user names it for an entity of the query. */
  lemma SearchSignals(t: Text, w: World, user: string, q: string, k: int, p: nat)
    requires p < |Search(t, w, user, q, k)|
    ensures
      var item := Search(t, w, user, q, k)[p];
      && item.candidate.id in w.rows
      && var row := w.rows[item.candidate.id];
         var marked := exists e :: e in w.edges && e.memoryId == item.candidate.id && Mentions(t, e, user, q);
         && item.signals.vector == t.round6(CosineSimilarity01(t.embed(q), row.embedding, t.magnitude(t.embed(q)),
                                                               t.magnitude(row.embedding)))
         && item.signals.keyword == t.round6(KeywordScore(t.tokens(q), t.tokens(row.content)))
         && item.signals.graph == t.round6(if marked then 1.0 else 0.0)
  {
    ResultSignals(t, q, t.embed(q), Candidates(w, user), GraphIds(t, w.edges, user, q), ClampTopK(k), p);
    var c := Search(t, w, user, q, k)[p].candidate;
    var j :| 0 <= j < |Candidates(w, user)| && Candidates(w, user)[j] == c;
    GraphMark(t, w.edges, user, q, c.id);
  }

  lemma GraphMark(t: Text, edges: seq<Edge>, user: string, q: string, id: Uuid)
    ensures id in GraphIds(t, edges, user, q)
      <==> exists e :: e in edges && e.memoryId == id && Mentions(t, e, user, q)
  {
  }

  /* ---------- two states ---------- */

  /** The same candidates, with the same graph boosts. */
  ghost predicate SameInputs(t: Text, w: World, w': World, user: string, q: string) {
    && Candidates(w', user) == Candidates(w, user)
    && SameBoosts(Candidates(w, user), GraphIds(t, w.edges, user, q), GraphIds(t, w'.edges, user, q))
  }

  ghost predicate SameBoosts(cs: seq<Candidate>, g: set<Uuid>, g': set<Uuid>) {
    forall j :: 0 <= j < |cs| ==> (cs[j].id in g <==> cs[j].id in g')
  }

  /** `round(x, 6)` leaves the two values of the graph signal apart. */
  ghost predicate KeepsMarks(t: Text) { t.round6(0.0) != t.round6(1.0) }

  lemma BoostsDecide(t: Text, q: string, cs: seq<Candidate>, g: set<Uuid>, g': set<Uuid>)
    requires SameBoosts(cs, g, g')
    ensures ScoredAll(t, q, t.embed(q), cs, g) == ScoredAll(t, q, t.embed(q), cs, g')
  {
    forall j | 0 <= j < |cs| ensures Scored(t, q, t.embed(q), cs[j], g) == Scored(t, q, t.embed(q), cs[j], g') {}
  }

  lemma SameInputsSameSearch(t: Text, w: World, w': World, user: string, q: string, k: int)
    requires SameInputs(t, w, w', user, q)
    ensures Search(t, w', user, q, k) == Search(t, w, user, q, k)
  {
    BoostsDecide(t, q, Candidates(w, user), GraphIds(t, w.edges, user, q), GraphIds(t, w'.edges, user, q));
  }

  lemma InputsCompose(t: Text, a: World, b: World, c: World, user: string, q: string)
    requires SameInputs(t, a, b, user, q) && SameInputs(t, b, c, user, q)
    ensures SameInputs(t, a, c, user, q)
  {
  }

  /** When all candidates are returned, the result gives each of them away, with its boost. */
  lemma RankShowsInputs(t: Text, q: string, cs: seq<Candidate>, cs': seq<Candidate>, g: set<Uuid>, g': set<Uuid>,
                        k: nat, j: nat)
    requires KeepsMarks(t) && |cs| <= k && j < |cs|
    requires Rank(t, q, t.embed(q), cs, g, k) == Rank(t, q, t.embed(q), cs', g', k)
    ensures cs[j] in cs' && (cs[j].id in g <==> cs[j].id in g')
  {
    var p := CandidateIsRetrieved(t, q, cs, g, k, j);
    var j' := RetrievedIsCandidate(t, q, cs', g', k, p);
    assert Scored(t, q, t.embed(q), cs[j], g) == Scored(t, q, t.embed(q), cs'[j'], g');
  }

  lemma HeadIsNewest(a: seq<Candidate>)
    requires NewestFirst(a) && a != []
    ensures NewestFirst(a[1..])
    ensures forall c :: c in a <==> c == a[0] || c in a[1..]
    ensures forall c :: c in a[1..] ==> c.createdAt < a[0].createdAt
  {
  }

  lemma SameHead(a: seq<Candidate>, b: seq<Candidate>)
    requires NewestFirst(a) && NewestFirst(b) && a != [] && b != []
    requires forall c :: c in a <==> c in b
    ensures a[0] == b[0]
    ensures forall c :: c in a[1..] <==> c in b[1..]
  {
    HeadIsNewest(a);
    HeadIsNewest(b);
    assert a[0] in b && b[0] in a;
    forall c ensures c in a[1..] <==> c in b[1..] {
      assert c in a[1..] <==> c in a && c != a[0];
      assert c in b[1..] <==> c in b && c != b[0];
    }
  }

  lemma {:induction false} FallingIsUnique(a: seq<Candidate>, b: seq<Candidate>)
    requires NewestFirst(a) && NewestFirst(b)
    requires forall c :: c in a <==> c in b
    ensures a == b
  {
    assert b == [] || b[0] in b;
    if a != [] {
      assert a[0] in b;
      SameHead(a, b);
      HeadIsNewest(a);
      HeadIsNewest(b);
      FallingIsUnique(a[1..], b[1..]);
      assert a == [a[0]] + a[1..] && b == [b[0]] + b[1..];
    }
  }

  /** Two states answer a search alike exactly when they have the same candidates with the same boosts, provided all
      active rows fit in the answer. */
  lemma SearchesAgreeIff(t: Text, w: World, w': World, user: string, q: string, k: int)
    requires KeepsMarks(t) && WellFormed(w) && WellFormed(w')
    requires |ActiveOf(w.order, w.rows, user)| <= ClampTopK(k) && |ActiveOf(w'.order, w'.rows, user)| <= ClampTopK(k)
    ensures Search(t, w', user, q, k) == Search(t, w, user, q, k) <==> SameInputs(t, w, w', user, q)
  {
    var cs, cs', g, g' := Candidates(w, user), Candidates(w', user), GraphIds(t, w.edges, user, q),
      GraphIds(t, w'.edges, user, q);
    if SameInputs(t, w, w', user, q) {
      SameInputsSameSearch(t, w, w', user, q, k);
    } else if Rank(t, q, t.embed(q), cs, g, ClampTopK(k)) == Rank(t, q, t.embed(q), cs', g', ClampTopK(k)) {
      forall j | 0 <= j < |cs| ensures cs[j] in cs' && (cs[j].id in g <==> cs[j].id in g') {
        RankShowsInputs(t, q, cs, cs', g, g', ClampTopK(k), j);
      }
      forall j | 0 <= j < |cs'| ensures cs'[j] in cs {
        RankShowsInputs(t, q, cs', cs, g', g, ClampTopK(k), j);
      }
      CandidatesNewestFirst(w, user);
      CandidatesNewestFirst(w', user);
      FallingIsUnique(cs, cs');
      assert false;
    }
  }

  /* ---------- one operation ---------- */

  /** An `add` that closes the displaced fact but goes no further takes the boost from an active row the query is
      about. */
  predicate Unboosts(t: Text, w: World, displaced: Option<Uuid>, entity: string, f: Faults, q: string) {
    && displaced.Some? && Copies(f.close) > 0
    && displaced.value in w.rows && w.rows[displaced.value].active
    && t.lower(entity) in t.queryEntities(q)
  }

  /** The operation leaves the answers to `q` as they are: nothing is committed, and no boost is lost on the way. */
  predicate Unseen(t: Text, w: World, op: Op, q: string) {
    match op
    case Add(r, f) =>
      var fact := FactOf(t, r);
      fact.None? || r.id in w.rows
      || (!Commits(t, w, r, fact.value, f) && !Unboosts(t, w, Displaced(w.edges, r.user, fact.value),
        fact.value.entity, f, q))
    case Delete(id, f) =>
      id !in w.rows || !w.rows[id].active || !TakesEffect(f.commit)
  }

  lemma UncommittedShape(t: Text, w: World, r: AddRequest, fact: Fact, now: int, f: Faults)
    requires r.id !in w.rows && !Commits(t, w, r, fact, f)
    ensures StoreStep(t, w, r, fact, now, f).0 == AfterClose(w, Displaced(w.edges, r.user, fact), now, f.close)
  {
  }

  lemma CloseBoosts(t: Text, edges: seq<Edge>, id: Uuid, at: int, n: nat, user: string, q: string, x: Uuid)
    ensures x in GraphIds(t, ApplyTimes(edges, CloseFact(id, at), n), user, q)
      <==> x in GraphIds(t, edges, user, q) && !(n > 0 && x == id)
  {
    CloseTimes(edges, id, at, n);
    if n > 0 {
      var edges' := CloseEdges(edges, id, at);
      if x in GraphIds(t, edges', user, q) {
        var e :| e in edges' && Open(e) && e.user == user && t.lower(e.fact.entity) in t.queryEntities(q)
          && e.memoryId == x;
        var d := CloseOrigin(edges, id, at, e);
      }
      if x in GraphIds(t, edges, user, q) && x != id {
        var i :| 0 <= i < |edges| && Open(edges[i]) && edges[i].user == user
          && t.lower(edges[i].fact.entity) in t.queryEntities(q)
                 && edges[i].memoryId == x;
        assert edges'[i] in edges';
      }
    }
  }

  /** The displaced memory is boosted exactly by the queries about its entity. */
  lemma DisplacedBoost(t: Text, w: World, user: string, fact: Fact, q: string)
    requires AllFaithful(t, w) && Displaced(w.edges, user, fact).Some?
    ensures
      var d := Displaced(w.edges, user, fact).value;
      && d in w.rows && w.rows[d].user == user
      && (d in GraphIds(t, w.edges, user, q) <==> t.lower(fact.entity) in t.queryEntities(q))
  {
    var newest := FindActive(w.edges, user, fact.entity, fact.relation).value;
    assert Faithful(t, w.rows, newest);
    if newest.memoryId in GraphIds(t, w.edges, user, q) {
      var e :| e in w.edges && Open(e) && e.user == user && t.lower(e.fact.entity) in t.queryEntities(q)
        && e.memoryId == newest.memoryId;
      assert Faithful(t, w.rows, e);
    }
  }

  lemma UncommittedSameInputs(t: Text, w: World, r: AddRequest, fact: Fact, now: int, f: Faults, user: string,
                              q: string)
    requires AllFaithful(t, w) && r.id !in w.rows && !Commits(t, w, r, fact, f)
    requires !Unboosts(t, w, Displaced(w.edges, r.user, fact), fact.entity, f, q)
    ensures SameInputs(t, w, StoreStep(t, w, r, fact, now, f).0, user, q)
  {
    UncommittedShape(t, w, r, fact, now, f);
    var displaced, cs := Displaced(w.edges, r.user, fact), Candidates(w, user);
    if displaced.Some? {
      DisplacedBoost(t, w, r.user, fact, q);
      forall j | 0 <= j < |cs|
        ensures cs[j].id in GraphIds(t, w.edges, user, q)
          <==> cs[j].id in GraphIds(t, ApplyTimes(w.edges, CloseFact(displaced.value, now), Copies(f.close)), user, q)
      {
        CloseBoosts(t, w.edges, displaced.value, now, Copies(f.close), user, q, cs[j].id);
      }
    }
  }

  lemma UnseenSameInputs(t: Text, w: World, torn: set<Uuid>, op: Op, user: string, q: string)
    requires Safe(t, w, torn) && Unseen(t, w, op, q)
    ensures SameInputs(t, w, Step(t, w, op), user, q)
  {
    if op.Add? && FactOf(t, op.request).Some? && op.request.id !in w.rows {
      UncommittedSameInputs(t, Tick(w), op.request, FactOf(t, op.request).value, w.clock, op.faults, user, q);
      assert SameInputs(t, w, Tick(w), user, q);
      InputsCompose(t, w, Tick(w), Step(t, w, op), user, q);
    }
  }

  /** An unseen operation changes nobody's answer to `q`. */
  lemma UnseenSameSearch(t: Text, w: World, torn: set<Uuid>, op: Op, user: string, q: string, k: int)
    requires Safe(t, w, torn) && Unseen(t, w, op, q)
    ensures Search(t, Step(t, w, op), user, q, k) == Search(t, w, user, q, k)
  {
    UnseenSameInputs(t, w, torn, op, user, q);
    SameInputsSameSearch(t, w, Step(t, w, op), user, q, k);
  }

  /** So is one that touches another user. */
  lemma UntouchedSameInputs(t: Text, w: World, torn: set<Uuid>, op: Op, user: string, q: string)
    requires Safe(t, w, torn) && !Touches(w, op, user)
    ensures SameInputs(t, w, Step(t, w, op), user, q)
  {
    OtherUsersView(t, w, torn, op, user);
    var w' := Step(t, w, op);
    assert RecentIds(w', user) == RecentIds(w, user);
    assert Candidates(w', user) == Candidates(w, user);
    assert GraphIds(t, w'.edges, user, q) == GraphIds(t, w.edges, user, q);
  }

  lemma CommittedAddShows(t: Text, w: World, torn: set<Uuid>, r: AddRequest, fact: Fact, now: int, f: Faults,
                          q: string, k: int)
    requires Safe(t, w, torn) && r.id !in w.rows && Commits(t, w, r, fact, f)
    requires |ActiveOf(w.order, w.rows, r.user)| < ClampTopK(k)
    ensures Search(t, StoreStep(t, w, r, fact, now, f).0, r.user, q, k) != Search(t, w, r.user, q, k)
  {
    var w' := StoreStep(t, w, r, fact, now, f).0;
    DisplacedKnown(t, w, r.user, fact);
    StoreRows(t, w, r, fact, now, f);
    CommitActive(w, r.id, NewRow(t, r, now), Displaced(w.edges, r.user, fact), r.user);
    assert w'.order[|w.order|] == r.id;
    AllActiveRetrieved(t, w', r.user, q, k, r.id);
    RetrievedAreActive(t, w, r.user, q, k);
  }

  lemma UnboostShows(t: Text, w: World, torn: set<Uuid>, r: AddRequest, fact: Fact, now: int, f: Faults,
                     q: string, k: int)
    requires KeepsMarks(t) && Safe(t, w, torn) && r.id !in w.rows && !Commits(t, w, r, fact, f)
    requires Unboosts(t, w, Displaced(w.edges, r.user, fact), fact.entity, f, q)
    requires |ActiveOf(w.order, w.rows, r.user)| < ClampTopK(k)
    ensures Search(t, StoreStep(t, w, r, fact, now, f).0, r.user, q, k) != Search(t, w, r.user, q, k)
  {
    var d, recent := Displaced(w.edges, r.user, fact).value, RecentIds(w, r.user);
    UncommittedShape(t, w, r, fact, now, f);
    DisplacedBoost(t, w, r.user, fact, q);
    CloseBoosts(t, w.edges, d, now, Copies(f.close), r.user, q, d);
    assert d in Reversed(ActiveOf(w.order, w.rows, r.user));
    var j :| 0 <= j < |recent| && recent[j] == d;
    var w', cs := StoreStep(t, w, r, fact, now, f).0, Candidates(w, r.user);
    if Search(t, w', r.user, q, k) == Search(t, w, r.user, q, k) {
      RankShowsInputs(t, q, cs, cs, GraphIds(t, w.edges, r.user, q), GraphIds(t, w'.edges, r.user, q), ClampTopK(k), j);
      assert false;
    }
  }

  lemma CommittedDeleteShows(t: Text, w: World, torn: set<Uuid>, id: Uuid, f: Faults, q: string, k: int)
    requires Safe(t, w, torn) && id in w.rows && w.rows[id].active && TakesEffect(f.commit)
    requires |ActiveOf(w.order, w.rows, w.rows[id].user)| <= ClampTopK(k)
    ensures Search(t, Step(t, w, Delete(id, f)), w.rows[id].user, q, k) != Search(t, w, w.rows[id].user, q, k)
  {
    AllActiveRetrieved(t, w, w.rows[id].user, q, k, id);
    RetrievedAreActive(t, Step(t, w, Delete(id, f)), w.rows[id].user, q, k);
  }

  /** Any other operation changes an answer with room for more than the active rows of the user it touches. */
  lemma SeenChangesSearch(t: Text, w: World, torn: set<Uuid>, op: Op, user: string, q: string, k: int)
    requires KeepsMarks(t) && Safe(t, w, torn) && Touches(w, op, user) && !Unseen(t, w, op, q)
    requires |ActiveOf(w.order, w.rows, user)| < ClampTopK(k)
    ensures Search(t, Step(t, w, op), user, q, k) != Search(t, w, user, q, k)
  {
    match op
    case Add(r, f) =>
      TickedSafe(t, w, torn);
      var fact := FactOf(t, r).value;
      assert Search(t, Tick(w), user, q, k) == Search(t, w, user, q, k);
      if Commits(t, w, r, fact, f) {
        CommittedAddShows(t, Tick(w), torn, r, fact, w.clock, f, q, k);
      } else {
        UnboostShows(t, Tick(w), torn, r, fact, w.clock, f, q, k);
      }
    case Delete(id, f) =>
      CommittedDeleteShows(t, w, torn, id, f, q, k);
  }

  /** So an operation leaves such an answer unchanged exactly when it is unseen. */
  lemma AnswerUnchangedIff(t: Text, w: World, torn: set<Uuid>, op: Op, user: string, q: string, k: int)
    requires KeepsMarks(t) && Safe(t, w, torn) && Touches(w, op, user)
    requires |ActiveOf(w.order, w.rows, user)| < ClampTopK(k)
    ensures Search(t, Step(t, w, op), user, q, k) == Search(t, w, user, q, k) <==> Unseen(t, w, op, q)
  {
    if Unseen(t, w, op, q) {
      UnseenSameSearch(t, w, torn, op, user, q, k);
    } else {
      SeenChangesSearch(t, w, torn, op, user, q, k);
    }
  }
}
