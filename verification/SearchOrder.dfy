/** The order of search results in every reachable state: best score first, ties to the newest memory. */
module SearchOrder {
  import opened Domain
  import opened Retrieval
  import opened Stores
  import opened MockBackend
  import opened CrashSafety

  ghost predicate Rising(rows: map<Uuid, Row>, ids: seq<Uuid>) {
    && (forall i :: 0 <= i < |ids| ==> ids[i] in rows)
    && forall i, j :: 0 <= i < j < |ids| ==> rows[ids[i]].createdAt < rows[ids[j]].createdAt
  }

  lemma {:induction false} ActiveRising(order: seq<Uuid>, rows: map<Uuid, Row>, user: string)
    requires Rising(rows, order)
    ensures Rising(rows, ActiveOf(order, rows, user))
  {
    if order != [] {
      var n := |order| - 1;
      var front := ActiveOf(order[..n], rows, user);
      ActiveRising(order[..n], rows, user);
      forall i | 0 <= i < |front| ensures rows[front[i]].createdAt < rows[order[n]].createdAt {
        assert front[i] in front;
        var j :| 0 <= j < n && order[j] == front[i];
      }
    }
  }

  lemma ReversedFalls(rows: map<Uuid, Row>, ids: seq<Uuid>, i: nat, j: nat)
    requires Rising(rows, ids) && i < j < |ids|
    ensures Reversed(ids)[i] in rows && Reversed(ids)[j] in rows
    ensures rows[Reversed(ids)[i]].createdAt > rows[Reversed(ids)[j]].createdAt
  {
  }

  lemma OrderRises(w: World, user: string)
    requires WellFormed(w)
    ensures Rising(w.rows, ActiveOf(w.order, w.rows, user))
  {
    forall i | 0 <= i < |w.order| ensures w.order[i] in w.rows { assert w.order[i] in w.order; }
    ActiveRising(w.order, w.rows, user);
  }

  ghost predicate NewestFirst(cs: seq<Candidate>) {
    forall i, j :: 0 <= i < j < |cs| ==> cs[i].createdAt > cs[j].createdAt
  }

  /** The candidates handed to the ranker come newest first. */
  lemma CandidatesNewestFirst(w: World, user: string)
    requires WellFormed(w)
    ensures NewestFirst(Candidates(w, user))
  {
    var active, cs := ActiveOf(w.order, w.rows, user), Candidates(w, user);
    OrderRises(w, user);
    forall i, j | 0 <= i < j < |cs| ensures cs[i].createdAt > cs[j].createdAt {
      ReversedFalls(w.rows, active, i, j);
    }
  }

  /** An active row is left out only when 200 newer ones are in. */
  lemma OnlyOldestLeftOut(w: World, user: string, id: Uuid, i: nat)
    requires WellFormed(w) && ActiveFor(w.rows, id, user) && i < |Candidates(w, user)|
    requires id !in RecentIds(w, user)
    ensures |Candidates(w, user)| == 200 && Candidates(w, user)[i].createdAt > w.rows[id].createdAt
  {
    var active := ActiveOf(w.order, w.rows, user);
    OrderRises(w, user);
    var all := Reversed(active);
    assert id in active && id in all;
    var p :| 0 <= p < |all| && all[p] == id;
    assert forall x :: 0 <= x < |RecentIds(w, user)| ==> RecentIds(w, user)[x] != id;
    assert p >= CANDIDATE_LIMIT;
    ReversedFalls(w.rows, active, i, p);
  }

  /** A result that comes before another: a better score, or the same score and newer. */
  predicate Ahead(a: Ranked, b: Ranked) {
    a.score > b.score || (a.score == b.score && a.candidate.createdAt > b.candidate.createdAt)
  }

  lemma RankedInOrder(t: Text, q: string, cs: seq<Candidate>, g: set<Uuid>, k: nat, p: nat, r: nat)
    requires NewestFirst(cs) && p < r < |Rank(t, q, t.embed(q), cs, g, k)|
    ensures Ahead(Rank(t, q, t.embed(q), cs, g, k)[p], Rank(t, q, t.embed(q), cs, g, k)[r])
  {
  }

  lemma OmittedIsNotSelected(items: seq<Ranked>, found: seq<Ranked>, sel: seq<nat>, j: nat)
    requires |found| == |sel| && j < |items| && items[j] !in found
    requires forall r :: 0 <= r < |sel| ==> sel[r] < |items| && found[r] == items[sel[r]]
    ensures j !in sel
  {
  }

  lemma OmittedIsBehind(t: Text, q: string, cs: seq<Candidate>, g: set<Uuid>, k: nat, p: nat, j: nat)
    requires NewestFirst(cs) && p < |Rank(t, q, t.embed(q), cs, g, k)| && j < |cs|
    requires Scored(t, q, t.embed(q), cs[j], g) !in Rank(t, q, t.embed(q), cs, g, k)
    ensures Ahead(Rank(t, q, t.embed(q), cs, g, k)[p], Scored(t, q, t.embed(q), cs[j], g))
  {
    var sel := RankIsStableTopK(t, q, t.embed(q), cs, g, k);
    OmittedIsNotSelected(ScoredAll(t, q, t.embed(q), cs, g), Rank(t, q, t.embed(q), cs, g, k), sel, j);
    assert Before(Scores(ScoredAll(t, q, t.embed(q), cs, g)), sel[p], j);
  }

  /** Every search in every history, failures included: scores descend, equal scores go newest first, and each
      candidate left out would come after every one returned. */
  lemma SearchIsOrdered(t: Text, ops: seq<Op>, user: string, q: string, topK: int)
    ensures
      var w := Run(t, ops);
      var found, g := Search(t, w, user, q, topK), GraphIds(t, w.edges, user, q);
      && (forall p, r :: 0 <= p < r < |found| ==> Ahead(found[p], found[r]))
      && (forall p, c :: 0 <= p < |found| && c in Candidates(w, user) && Scored(t, q, t.embed(q), c, g) !in found ==>
            Ahead(found[p], Scored(t, q, t.embed(q), c, g)))
  {
    var w := Run(t, ops);
    RunIsSafe(t, ops);
    CandidatesNewestFirst(w, user);
    var cs, g, k := Candidates(w, user), GraphIds(t, w.edges, user, q), ClampTopK(topK);
    var found := Search(t, w, user, q, topK);
    forall p, r | 0 <= p < r < |found| ensures Ahead(found[p], found[r]) {
      RankedInOrder(t, q, cs, g, k, p, r);
    }
    forall p, c | 0 <= p < |found| && c in cs && Scored(t, q, t.embed(q), c, g) !in found
      ensures Ahead(found[p], Scored(t, q, t.embed(q), c, g))
    {
      var j :| 0 <= j < |cs| && cs[j] == c;
      OmittedIsBehind(t, q, cs, g, k, p, j);
    }
  }
}
