/** Hybrid retrieval scoring: app/memory/retrieval.py. */
module Retrieval {
  import opened Domain

  datatype Candidate = Candidate(
    id: Uuid, user: string, agentId: Option<string>, runId: Option<string>,
    content: string, embedding: seq<real>, createdAt: int)

  datatype Signals = Signals(vector: real, keyword: real, graph: real)

  datatype Ranked = Ranked(candidate: Candidate, score: real, signals: Signals)

  /* ---------- vector and keyword signals ---------- */

  function Min(x: real, y: real): real { if x <= y then x else y }

  function Max(x: real, y: real): real { if x >= y then x else y }

  /** The dot product of the common prefix: `zip(left, right, strict=False)`. */
  function Dot(left: seq<real>, right: seq<real>): real {
    if left == [] || right == [] then 0.0 else left[0] * right[0] + Dot(left[1..], right[1..])
  }

  function SumSquares(v: seq<real>): real {
    if v == [] then 0.0 else v[0] * v[0] + SumSquares(v[1..])
  }

  /** The square root is supplied by the caller, since `real` has none. */
  ghost predicate IsMagnitude(m: real, v: seq<real>) {
    m >= 0.0 && m * m == SumSquares(v)
  }

  function CosineSimilarity01(left: seq<real>, right: seq<real>, leftMag: real, rightMag: real): real {
    if leftMag == 0.0 || rightMag == 0.0 then 0.0
    else
      var product := leftMag * rightMag;
      assert product != 0.0;
      var cosine := Dot(left, right) / product;
      Max(0.0, Min(1.0, (cosine + 1.0) / 2.0))
  }

  function KeywordScore(query: set<string>, content: set<string>): real {
    if query == {} then 0.0 else |query * content| as real / |query| as real
  }

  lemma {:induction false} SumSquaresNonNegative(v: seq<real>)
    ensures SumSquares(v) >= 0.0
  {
    if v != [] {
      SumSquaresNonNegative(v[1..]);
      assert v[0] * v[0] >= 0.0;
    }
  }

  lemma StrictSquareOrder(y: real, x: real)
    requires 0.0 <= y < x
    ensures y * y < x * x
  {
    var d := x - y;
    assert x * x == y * y + 2.0 * (y * d) + d * d;
    assert y * d >= 0.0 && d * d > 0.0;
  }

  lemma SquareOrder(x: real, y: real)
    requires y >= 0.0 && x * x <= y * y
    ensures x <= y
  {
    if y < x { StrictSquareOrder(y, x); }
  }

  lemma QuotientOrder(n: real, d: real)
    requires d > 0.0 && n <= d
    ensures n / d <= 1.0
  {
    assert n / d <= d / d;
  }

  lemma ProductOrder(a: real, b: real, c: real)
    requires a <= b && c >= 0.0
    ensures c * a <= c * b
  {
  }

  lemma CrossTerm(p: real, q: real, d: real, a: real, b: real)
    requires a >= 0.0 && b >= 0.0 && d * d <= a * b
    ensures 2.0 * (p * q * d) <= p * p * b + q * q * a
  {
    var u, v := p * p * b, q * q * a;
    var x := p * q * d;
    assert p * p >= 0.0 && q * q >= 0.0;
    assert u >= 0.0 && v >= 0.0;
    calc {
      x * x;
      (p * p * (q * q)) * (d * d);
    <= { assert p * p * (q * q) >= 0.0; ProductOrder(d * d, a * b, p * p * (q * q)); }
      (p * p * (q * q)) * (a * b);
      u * v;
    }
    assert (2.0 * x) * (2.0 * x) <= (u + v) * (u + v) by {
      assert (2.0 * x) * (2.0 * x) == 4.0 * (x * x);
      assert (u + v) * (u + v) == 4.0 * (u * v) + (u - v) * (u - v);
      assert (u - v) * (u - v) >= 0.0;
    }
    SquareOrder(2.0 * x, u + v);
  }

  /** Cauchy-Schwarz for the truncated product against the full magnitudes, lengths unrestricted. */
  lemma {:induction false} CauchySchwarz(left: seq<real>, right: seq<real>)
    ensures Dot(left, right) * Dot(left, right) <= SumSquares(left) * SumSquares(right)
  {
    SumSquaresNonNegative(left);
    SumSquaresNonNegative(right);
    if left == [] || right == [] {
      assert Dot(left, right) == 0.0;
    } else {
      CauchySchwarz(left[1..], right[1..]);
      SumSquaresNonNegative(left[1..]);
      SumSquaresNonNegative(right[1..]);
      var p, q, d := left[0], right[0], Dot(left[1..], right[1..]);
      var a, b := SumSquares(left[1..]), SumSquares(right[1..]);
      CrossTerm(p, q, d, a, b);
      ExpandSquares(p, q, d, a, b);
    }
  }

  lemma ExpandSquares(p: real, q: real, d: real, a: real, b: real)
    requires d * d <= a * b
    requires 2.0 * (p * q * d) <= p * p * b + q * q * a
    ensures (p * q + d) * (p * q + d) <= (p * p + a) * (q * q + b)
  {
    assert (p * q + d) * (p * q + d) == p * q * (p * q) + 2.0 * (p * q * d) + d * d;
    assert (p * p + a) * (q * q + b) == p * q * (p * q) + p * p * b + q * q * a + a * b;
  }

  lemma CosineInRange(d: real, m: real)
    requires m > 0.0 && d * d <= m * m
    ensures -1.0 <= d / m <= 1.0 && d / m * m == d
  {
    SquareOrder(d, m);
    assert (-d) * (-d) == d * d;
    SquareOrder(-d, m);
    QuotientOrder(d, m);
    QuotientOrder(-d, m);
    assert (-d) / m == -(d / m);
  }

  lemma MagnitudeBound(d: real, l: real, r: real, a: real, b: real)
    requires l > 0.0 && r > 0.0 && l * l == a && r * r == b && d * d <= a * b
    ensures l * r > 0.0 && d * d <= (l * r) * (l * r)
  {
    assert (l * r) * (l * r) == (l * l) * (r * r);
  }

  lemma MapToUnit(c: real, d: real, m: real)
    requires -1.0 <= c <= 1.0 && c * m == d
    ensures Max(0.0, Min(1.0, (c + 1.0) / 2.0)) == (c + 1.0) / 2.0
    ensures 0.0 <= (c + 1.0) / 2.0 <= 1.0 && (c + 1.0) / 2.0 * (2.0 * m) == d + m
  {
    var h := (c + 1.0) / 2.0;
    assert h * (2.0 * m) == (h * 2.0) * m == (c + 1.0) * m == c * m + m;
  }

  lemma SimilarityIsCosine(left: seq<real>, right: seq<real>, leftMag: real, rightMag: real, m: real)
    requires leftMag > 0.0 && rightMag > 0.0 && m == leftMag * rightMag && m > 0.0
    requires Dot(left, right) * Dot(left, right) <= m * m
    ensures 0.0 <= CosineSimilarity01(left, right, leftMag, rightMag) <= 1.0
    ensures CosineSimilarity01(left, right, leftMag, rightMag) * (2.0 * m) == Dot(left, right) + m
  {
    var d := Dot(left, right);
    CosineInRange(d, m);
    MapToUnit(d / m, d, m);
  }

  lemma CauchyProduct(left: seq<real>, right: seq<real>, leftMag: real, rightMag: real)
    requires IsMagnitude(leftMag, left) && IsMagnitude(rightMag, right) && leftMag > 0.0 && rightMag > 0.0
    ensures leftMag * rightMag > 0.0
    ensures Dot(left, right) * Dot(left, right) <= leftMag * rightMag * (leftMag * rightMag)
  {
    CauchySchwarz(left, right);
    MagnitudeBound(Dot(left, right), leftMag, rightMag, SumSquares(left), SumSquares(right));
  }

  /** The clamp in `cosine_similarity_01` never changes a value, and the result is a similarity in [0, 1]. */
  lemma SimilarityNeedsNoClamp(left: seq<real>, right: seq<real>, leftMag: real, rightMag: real)
    requires IsMagnitude(leftMag, left) && IsMagnitude(rightMag, right)
    ensures 0.0 <= CosineSimilarity01(left, right, leftMag, rightMag) <= 1.0
    ensures leftMag == 0.0 || rightMag == 0.0 ==> CosineSimilarity01(left, right, leftMag, rightMag) == 0.0
    ensures leftMag > 0.0 && rightMag > 0.0 ==>
      CosineSimilarity01(left, right, leftMag, rightMag) * (2.0 * (leftMag * rightMag))
        == Dot(left, right) + leftMag * rightMag
  {
    if leftMag > 0.0 && rightMag > 0.0 {
      CauchyProduct(left, right, leftMag, rightMag);
      SimilarityIsCosine(left, right, leftMag, rightMag, leftMag * rightMag);
    }
  }

  lemma KeywordScoreBounds(query: set<string>, content: set<string>)
    ensures 0.0 <= KeywordScore(query, content) <= 1.0
    ensures KeywordScore(query, content) == 1.0 <==> query != {} && query <= content
    ensures KeywordScore(query, content) == 0.0 <==> query !! content
  {
    var shared := query * content;
    if query != {} {
      assert shared <= query;
      SubsetSize(shared, query);
      var n, d := |shared| as real, |query| as real;
      assert d >= 1.0 && n <= d;
      var r := n / d;
      assert r * d == n;
      QuotientOrder(n, d);
      if r == 1.0 { assert n == d; }
      if query <= content { assert shared == query; }
      if query !! content { assert shared == {}; }
      if r == 0.0 { assert n == 0.0; assert |shared| == 0; }
    }
  }

  lemma {:induction false} SubsetSize<T>(a: set<T>, b: set<T>)
    requires a <= b
    ensures |a| <= |b|
    ensures |a| == |b| ==> a == b
    decreases b
  {
    if a == {} {
      assert |b| == 0 ==> b == {};
    } else {
      var x :| x in a;
      SubsetSize(a - {x}, b - {x});
      assert a == (a - {x}) + {x} && b == (b - {x}) + {x};
    }
  }

  /* ---------- stable descending order ---------- */

  /** Index `i` precedes index `j` in a stable sort by descending score. */
  predicate Before(scores: seq<real>, i: nat, j: nat)
    requires i < |scores| && j < |scores|
  {
    scores[i] > scores[j] || (scores[i] == scores[j] && i < j)
  }

  ghost predicate StablySorted(scores: seq<real>, order: seq<nat>) {
    && (forall p :: 0 <= p < |order| ==> order[p] < |scores|)
    && (forall p, r :: 0 <= p < r < |order| ==> Before(scores, order[p], order[r]))
  }

  function Insert(scores: seq<real>, order: seq<nat>, i: nat): (r: seq<nat>)
    requires i < |scores| && StablySorted(scores, order)
    requires forall p :: 0 <= p < |order| ==> order[p] < i
    ensures |r| == |order| + 1
    ensures StablySorted(scores, r)
    ensures forall x :: x in r <==> x == i || x in order
  {
    if order == [] || scores[i] > scores[order[0]] then [i] + order
    else
      var rest := Insert(scores, order[1..], i);
      assert forall x :: x in rest ==> Before(scores, order[0], x) by {
        forall x | x in rest ensures Before(scores, order[0], x) {
          if x != i {
            var p :| 0 <= p < |order[1..]| && order[1..][p] == x;
            assert order[p + 1] == x;
          }
        }
      }
      assert order == [order[0]] + order[1..];
      [order[0]] + rest
  }

  /** The order Python's `sorted(key=score, reverse=True)` puts the first `n` items in. */
  function StableOrder(scores: seq<real>, n: nat): (r: seq<nat>)
    requires n <= |scores|
    ensures |r| == n
    ensures StablySorted(scores, r)
    ensures forall x: nat :: x in r <==> x < n
  {
    if n == 0 then []
    else
      var order := StableOrder(scores, n - 1);
      assert forall p :: 0 <= p < |order| ==> order[p] in order;
      Insert(scores, order, n - 1)
  }

  lemma BeforeIsEarlier(scores: seq<real>, order: seq<nat>, a: nat, p: nat)
    requires StablySorted(scores, order) && a < |order| && p < |order|
    ensures Before(scores, order[a], order[p]) <==> a < p
  {
    if a > p {
      assert Before(scores, order[p], order[a]);
    }
  }

  /** Position of an item: the number of items that a stable descending sort puts before it. */
  lemma PositionCounts(scores: seq<real>, order: seq<nat>, p: nat)
    requires StablySorted(scores, order) && |order| == |scores| && p < |order|
    requires forall x: nat :: x in order <==> x < |scores|
    ensures |set j: nat | j < |scores| && Before(scores, j, order[p])| == p
  {
    var ahead := set j: nat | j < |scores| && Before(scores, j, order[p]);
    var prefix := set j: nat | j in order[..p];
    forall j ensures j in ahead <==> j in prefix {
      if j in prefix {
        var a :| 0 <= a < p && order[a] == j;
      }
      if j in ahead {
        assert j in order;
        var a :| 0 <= a < |order| && order[a] == j;
        BeforeIsEarlier(scores, order, a, p);
        assert j == order[..p][a];
      }
    }
    assert ahead == prefix;
    DistinctSize(order[..p]);
  }

  lemma {:induction false} DistinctSize<T>(s: seq<T>)
    requires forall i, j :: 0 <= i < j < |s| ==> s[i] != s[j]
    ensures |set x | x in s| == |s|
  {
    if s != [] {
      var n := |s| - 1;
      DistinctSize(s[..n]);
      assert (set x | x in s) == (set x | x in s[..n]) + {s[n]};
    }
  }

  /** Only one arrangement of the indices is stably sorted, so `StableOrder` is the specification. */
  lemma StableOrderUnique(scores: seq<real>, order: seq<nat>)
    requires StablySorted(scores, order) && |order| == |scores|
    requires forall x: nat :: x in order <==> x < |scores|
    ensures order == StableOrder(scores, |scores|)
  {
    var s := StableOrder(scores, |scores|);
    forall p | 0 <= p < |scores| ensures order[p] == s[p] {
      var x := order[p];
      assert x in s;
      var r :| 0 <= r < |s| && s[r] == x;
      PositionCounts(scores, order, p);
      PositionCounts(scores, s, r);
    }
  }

  /* ---------- ranking ---------- */

  function SignalsOf(t: Text, query: string, queryEmbedding: seq<real>, c: Candidate, graphIds: set<Uuid>): Signals {
    Signals(
      CosineSimilarity01(queryEmbedding, c.embedding, t.magnitude(queryEmbedding), t.magnitude(c.embedding)),
      KeywordScore(t.tokens(query), t.tokens(c.content)),
      if c.id in graphIds then 1.0 else 0.0)
  }

  function Weighted(s: Signals): real {
    0.6 * s.vector + 0.2 * s.keyword + 0.2 * s.graph
  }

  function Scored(t: Text, query: string, queryEmbedding: seq<real>, c: Candidate, graphIds: set<Uuid>): Ranked {
    var s := SignalsOf(t, query, queryEmbedding, c, graphIds);
    Ranked(c, t.round6(Weighted(s)), Signals(t.round6(s.vector), t.round6(s.keyword), t.round6(s.graph)))
  }

  function ScoredAll(t: Text, query: string, queryEmbedding: seq<real>, cs: seq<Candidate>,
                     graphIds: set<Uuid>): (r: seq<Ranked>)
    ensures |r| == |cs|
    ensures forall i :: 0 <= i < |cs| ==> r[i] == Scored(t, query, queryEmbedding, cs[i], graphIds)
  {
    seq(|cs|, i requires 0 <= i < |cs| => Scored(t, query, queryEmbedding, cs[i], graphIds))
  }

  function Scores(items: seq<Ranked>): (r: seq<real>)
    ensures |r| == |items|
    ensures forall i :: 0 <= i < |items| ==> r[i] == items[i].score
  {
    seq(|items|, i requires 0 <= i < |items| => items[i].score)
  }

  function Ids(items: seq<Ranked>): (r: seq<Uuid>)
    ensures |r| == |items|
    ensures forall i :: 0 <= i < |items| ==> r[i] == items[i].candidate.id
  {
    seq(|items|, i requires 0 <= i < |items| => items[i].candidate.id)
  }

  function Take<T>(s: seq<T>, k: nat): seq<T> { if |s| <= k then s else s[..k] }

  function SortedByScore(items: seq<Ranked>): (r: seq<Ranked>)
    ensures |r| == |items|
  {
    var order := StableOrder(Scores(items), |items|);
    seq(|items|, p requires 0 <= p < |items| => assert order[p] in order; items[order[p]])
  }

  function Rank(t: Text, query: string, queryEmbedding: seq<real>, cs: seq<Candidate>, graphIds: set<Uuid>,
                topK: nat): seq<Ranked> {
    Take(SortedByScore(ScoredAll(t, query, queryEmbedding, cs, graphIds)), topK)
  }

  /** `rank_memories`: score every candidate in a loop, then sort and cut. */
  method RankMemories(t: Text, query: string, queryEmbedding: seq<real>, candidates: seq<Candidate>,
                      graphIds: set<Uuid>, topK: nat)
    returns (items: seq<Ranked>)
    ensures items == Rank(t, query, queryEmbedding, candidates, graphIds, topK)
  {
    var ranked: seq<Ranked> := [];
    for i := 0 to |candidates|
      invariant |ranked| == i
      invariant forall j :: 0 <= j < i ==> ranked[j] == Scored(t, query, queryEmbedding, candidates[j], graphIds)
    {
      ranked := ranked + [Scored(t, query, queryEmbedding, candidates[i], graphIds)];
    }
    assert ranked == ScoredAll(t, query, queryEmbedding, candidates, graphIds);
    items := Take(SortedByScore(ranked), topK);
  }

  lemma OmittedComeLater(scores: seq<real>, topK: nat, p: nat, j: nat)
    requires p < |Take(StableOrder(scores, |scores|), topK)| && j < |scores|
      && j !in Take(StableOrder(scores, |scores|), topK)
    ensures Before(scores, Take(StableOrder(scores, |scores|), topK)[p], j)
  {
    var order := StableOrder(scores, |scores|);
    var sel := Take(order, topK);
    assert order == sel + order[|sel|..];
    assert j in order;
    var r :| 0 <= r < |order[|sel|..]| && order[|sel|..][r] == j;
    assert order[|sel| + r] == j;
  }

  /** What the ranker returns: a descending, tie-stable selection of distinct candidates, none of the omitted ones
      scoring above a returned one; `sel[p]` is the candidate's place in the recency-ordered input. */
  lemma RankIsStableTopK(t: Text, query: string, qe: seq<real>, cs: seq<Candidate>, graphIds: set<Uuid>, topK: nat)
    returns (sel: seq<nat>)
    ensures |sel| == |Rank(t, query, qe, cs, graphIds, topK)| == if |cs| <= topK then |cs| else topK
    ensures forall p :: 0 <= p < |sel| ==>
      sel[p] < |cs| && Rank(t, query, qe, cs, graphIds, topK)[p] == Scored(t, query, qe, cs[sel[p]], graphIds)
    ensures StablySorted(Scores(ScoredAll(t, query, qe, cs, graphIds)), sel)
    ensures forall p: nat, j: nat :: p < |sel| && j < |cs| && j !in sel ==>
      Before(Scores(ScoredAll(t, query, qe, cs, graphIds)), sel[p], j)
  {
    var scores := Scores(ScoredAll(t, query, qe, cs, graphIds));
    sel := Take(StableOrder(scores, |cs|), topK);
    forall p: nat, j: nat | p < |sel| && j < |cs| && j !in sel ensures Before(scores, sel[p], j) {
      OmittedComeLater(scores, topK, p, j);
    }
  }

  lemma TopKIsPrefix(t: Text, query: string, qe: seq<real>, cs: seq<Candidate>, graphIds: set<Uuid>, j: nat, k: nat)
    requires j <= k
    ensures Rank(t, query, qe, cs, graphIds, j) <= Rank(t, query, qe, cs, graphIds, k)
    ensures Rank(t, query, qe, cs, graphIds, j) == Take(Rank(t, query, qe, cs, graphIds, k), j)
  {
  }

  ghost predicate Monotone(f: real -> real) {
    forall x, y :: x <= y ==> f(x) <= f(y)
  }

  /** Raising one score never moves its item later. */
  lemma RaisingNeverDemotes(s: seq<real>, s': seq<real>, i: nat, p: nat) returns (r: nat)
    requires |s| == |s'| && i < |s| && p < |s|
    requires s'[i] >= s[i] && forall j :: 0 <= j < |s| && j != i ==> s'[j] == s[j]
    requires StableOrder(s, |s|)[p] == i
    ensures r <= p && StableOrder(s', |s|)[r] == i
  {
    var order' := StableOrder(s', |s|);
    assert i in order';
    r :| 0 <= r < |order'| && order'[r] == i;
    PositionCounts(s, StableOrder(s, |s|), p);
    PositionCounts(s', order', r);
    var ahead := set j: nat | j < |s| && Before(s, j, i);
    var ahead' := set j: nat | j < |s'| && Before(s', j, i);
    assert ahead' <= ahead;
    SubsetSize(ahead', ahead);
  }

  lemma BoostRaisesOneScore(t: Text, query: string, qe: seq<real>, c: Candidate, graphIds: set<Uuid>, id: Uuid)
    requires Monotone(t.round6)
    ensures c.id != id ==> Scored(t, query, qe, c, graphIds + {id}) == Scored(t, query, qe, c, graphIds)
    ensures Scored(t, query, qe, c, graphIds + {id}).score >= Scored(t, query, qe, c, graphIds).score
  {
    assert c.id != id ==> (c.id in graphIds + {id} <==> c.id in graphIds);
    assert Weighted(SignalsOf(t, query, qe, c, graphIds)) <= Weighted(SignalsOf(t, query, qe, c, graphIds + {id}));
  }

  /** A query entity's graph boost never costs a candidate its place: if candidate `i` of the input is at place `p`
      without the boost, it is at a place no later than `p` with it. */
  lemma GraphBoostNeverDemotes(t: Text, query: string, qe: seq<real>, cs: seq<Candidate>, graphIds: set<Uuid>, i: nat,
                               p: nat)
    returns (r: nat)
    requires Monotone(t.round6) && i < |cs| && p < |cs|
    requires forall j :: 0 <= j < |cs| && j != i ==> cs[j].id != cs[i].id
    requires SortedByScore(ScoredAll(t, query, qe, cs, graphIds))[p] == Scored(t, query, qe, cs[i], graphIds)
    ensures r <= p < |cs|
    ensures SortedByScore(ScoredAll(t, query, qe, cs, graphIds + {cs[i].id}))[r]
      == Scored(t, query, qe, cs[i], graphIds + {cs[i].id})
  {
    var s := Scores(ScoredAll(t, query, qe, cs, graphIds));
    var s' := Scores(ScoredAll(t, query, qe, cs, graphIds + {cs[i].id}));
    forall j | 0 <= j < |cs| ensures j != i ==> s'[j] == s[j] ensures s'[j] >= s[j] {
      BoostRaisesOneScore(t, query, qe, cs[j], graphIds, cs[i].id);
    }
    var at := StableOrder(s, |cs|)[p];
    assert at in StableOrder(s, |cs|);
    assert cs[at].id == cs[i].id;
    r := RaisingNeverDemotes(s, s', i, p);
  }

  /** The weighted score of exact signals lies in [0, 1]. */
  lemma ScoreBounds(t: Text, query: string, qe: seq<real>, c: Candidate, graphIds: set<Uuid>)
    requires IsMagnitude(t.magnitude(qe), qe) && IsMagnitude(t.magnitude(c.embedding), c.embedding)
    ensures 0.0 <= Weighted(SignalsOf(t, query, qe, c, graphIds)) <= 1.0
  {
    SimilarityNeedsNoClamp(qe, c.embedding, t.magnitude(qe), t.magnitude(c.embedding));
    KeywordScoreBounds(t.tokens(query), t.tokens(c.content));
  }

  /* ---------- what the signals and the score measure ---------- */

  lemma {:induction false} DotPush(left: seq<real>, right: seq<real>, x: real, y: real)
    requires |left| == |right|
    ensures Dot(left + [x], right + [y]) == Dot(left, right) + x * y
  {
    if left == [] {
      assert ([] + [x])[1..] == [] && ([] + [y])[1..] == [];
    } else {
      assert (left + [x])[1..] == left[1..] + [x] && (right + [y])[1..] == right[1..] + [y];
      DotPush(left[1..], right[1..], x, y);
    }
  }

  /** Components without a partner do not count. */
  lemma {:induction false} DotTruncates(left: seq<real>, right: seq<real>, extra: seq<real>)
    requires |left| == |right|
    ensures Dot(left + extra, right) == Dot(left, right) == Dot(left, right + extra)
  {
    if left == [] {
      assert left + extra == extra && right + extra == extra;
    } else {
      assert (left + extra)[1..] == left[1..] + extra && (right + extra)[1..] == right[1..] + extra;
      DotTruncates(left[1..], right[1..], extra);
    }
  }

  function Negated(v: seq<real>): (r: seq<real>)
    ensures |r| == |v| && forall i :: 0 <= i < |v| ==> r[i] == -v[i]
  {
    seq(|v|, i requires 0 <= i < |v| => -v[i])
  }

  lemma {:induction false} DotSelf(v: seq<real>)
    ensures Dot(v, v) == SumSquares(v)
    ensures Dot(v, Negated(v)) == -SumSquares(v) && SumSquares(Negated(v)) == SumSquares(v)
  {
    if v != [] {
      DotSelf(v[1..]);
      assert Negated(v)[1..] == Negated(v[1..]);
      assert v[0] * -v[0] == -(v[0] * v[0]) && -v[0] * -v[0] == v[0] * v[0];
    }
  }

  lemma QuotientOfSelf(q: real)
    requires q > 0.0
    ensures q / q == 1.0 && (-q) / q == -1.0
  {
    assert (-q) / q == -(q / q);
  }

  lemma PositiveMagnitude(v: seq<real>, m: real)
    requires IsMagnitude(m, v) && m > 0.0
    ensures SumSquares(v) > 0.0
  {
    var q := m * m;
    if q <= 0.0 { SquareOrder(m, 0.0); }
  }

  lemma SimilarityOf(left: seq<real>, right: seq<real>, m: real, q: real)
    requires m > 0.0 && q == m * m && q > 0.0
    ensures Dot(left, right) == q ==> CosineSimilarity01(left, right, m, m) == 1.0
    ensures Dot(left, right) == -q ==> CosineSimilarity01(left, right, m, m) == 0.0
  {
    QuotientOfSelf(q);
  }

  /** A vector is as similar as can be to itself, and as little as can be to its opposite. */
  lemma SimilarityExtremes(v: seq<real>, m: real)
    requires IsMagnitude(m, v) && m > 0.0
    ensures CosineSimilarity01(v, v, m, m) == 1.0
    ensures CosineSimilarity01(v, Negated(v), m, m) == 0.0
  {
    DotSelf(v);
    PositiveMagnitude(v, m);
    SimilarityOf(v, v, m, SumSquares(v));
    SimilarityOf(v, Negated(v), m, SumSquares(v));
  }

  /** The keyword signal is the share of the query's tokens found in the content. */
  lemma KeywordShare(query: set<string>, content: set<string>)
    requires query != {}
    ensures KeywordScore(query, content) * |query| as real == |query * content| as real
  {
    var n, d := |query * content| as real, |query| as real;
    assert d > 0.0;
    assert n / d * d == n;
  }

  /** What a result reports: the similarity of the embeddings, the share of query tokens, and the graph mark. */
  lemma ResultSignals(t: Text, query: string, qe: seq<real>, cs: seq<Candidate>, graphIds: set<Uuid>, topK: nat, p: nat)
    requires p < |Rank(t, query, qe, cs, graphIds, topK)|
    ensures
      var item := Rank(t, query, qe, cs, graphIds, topK)[p];
      var c := item.candidate;
      && c in cs
      && item.signals.vector == t.round6(CosineSimilarity01(qe, c.embedding, t.magnitude(qe), t.magnitude(c.embedding)))
      && item.signals.keyword == t.round6(KeywordScore(t.tokens(query), t.tokens(c.content)))
      && item.signals.graph == t.round6(if c.id in graphIds then 1.0 else 0.0)
  {
    var sel := RankIsStableTopK(t, query, qe, cs, graphIds, topK);
  }

  /** Rounding to six places taken as exact. */
  ghost predicate Exact(t: Text) { forall x :: t.round6(x) == x }

  /** By how much `a` beats `b`, in fifths: three for the vector signal, one each for keywords and graph. */
  function Lead(a: Signals, b: Signals): real {
    3.0 * (a.vector - b.vector) + (a.keyword - b.keyword) + (a.graph - b.graph)
  }

  /** One result scores above another exactly when three times its lead in the vector signal, plus its leads in the two
      others, is positive; and the score is 1 when all signals are. */
  lemma TradeOff(t: Text, query: string, qe: seq<real>, cs: seq<Candidate>, graphIds: set<Uuid>, topK: nat, p: nat,
                 r: nat)
    requires Exact(t)
    requires p < |Rank(t, query, qe, cs, graphIds, topK)| && r < |Rank(t, query, qe, cs, graphIds, topK)|
    ensures
      var a, b := Rank(t, query, qe, cs, graphIds, topK)[p], Rank(t, query, qe, cs, graphIds, topK)[r];
      && (a.score > b.score <==> Lead(a.signals, b.signals) > 0.0)
      && 5.0 * (a.score - b.score) == Lead(a.signals, b.signals)
      && (a.signals == Signals(1.0, 1.0, 1.0) ==> a.score == 1.0)
  {
    var sel := RankIsStableTopK(t, query, qe, cs, graphIds, topK);
    ScoreOfSignals(t, query, qe, cs[sel[p]], graphIds);
    ScoreOfSignals(t, query, qe, cs[sel[r]], graphIds);
  }

  lemma ScoreOfSignals(t: Text, query: string, qe: seq<real>, c: Candidate, graphIds: set<Uuid>)
    requires Exact(t)
    ensures
      var item := Scored(t, query, qe, c, graphIds);
      5.0 * item.score == 3.0 * item.signals.vector + item.signals.keyword + item.signals.graph
  {
    var s := SignalsOf(t, query, qe, c, graphIds);
    assert t.round6(s.vector) == s.vector && t.round6(s.keyword) == s.keyword && t.round6(s.graph) == s.graph;
    assert t.round6(Weighted(s)) == Weighted(s);
  }

  /** With any monotone rounding, a lead by the exact signals is never lost. */
  lemma RoundedTradeOff(t: Text, query: string, qe: seq<real>, a: Candidate, b: Candidate, graphIds: set<Uuid>)
    requires Monotone(t.round6)
    requires Lead(SignalsOf(t, query, qe, a, graphIds), SignalsOf(t, query, qe, b, graphIds)) >= 0.0
    ensures Scored(t, query, qe, a, graphIds).score >= Scored(t, query, qe, b, graphIds).score
  {
    var x, y := SignalsOf(t, query, qe, a, graphIds), SignalsOf(t, query, qe, b, graphIds);
    assert 5.0 * (Weighted(x) - Weighted(y)) == Lead(x, y);
    assert Weighted(x) >= Weighted(y);
  }

  /** A graph boost is worth exactly a third of the vector range. */
  lemma BoostIsWorthAThird(t: Text, query: string, qe: seq<real>, cs: seq<Candidate>, graphIds: set<Uuid>, topK: nat,
                           p: nat, r: nat)
    requires Exact(t)
    requires p < |Rank(t, query, qe, cs, graphIds, topK)| && r < |Rank(t, query, qe, cs, graphIds, topK)|
    ensures
      var a, b := Rank(t, query, qe, cs, graphIds, topK)[p], Rank(t, query, qe, cs, graphIds, topK)[r];
      a.candidate.id in graphIds && b.candidate.id !in graphIds && a.signals.keyword == b.signals.keyword ==>
        (a.score >= b.score <==> b.signals.vector - a.signals.vector <= 1.0 / 3.0)
  {
    TradeOff(t, query, qe, cs, graphIds, topK, p, r);
    ResultSignals(t, query, qe, cs, graphIds, topK, p);
    ResultSignals(t, query, qe, cs, graphIds, topK, r);
  }

  /** Keywords and graph together never make up for a vector deficit of more than two thirds. */
  lemma DeficitIsDecisive(t: Text, query: string, qe: seq<real>, cs: seq<Candidate>, graphIds: set<Uuid>, topK: nat,
                          p: nat, r: nat)
    requires Exact(t)
    requires p < |Rank(t, query, qe, cs, graphIds, topK)| && r < |Rank(t, query, qe, cs, graphIds, topK)|
    ensures
      var a, b := Rank(t, query, qe, cs, graphIds, topK)[p], Rank(t, query, qe, cs, graphIds, topK)[r];
      b.signals.vector - a.signals.vector > 2.0 / 3.0 ==> b.score > a.score
  {
    TradeOff(t, query, qe, cs, graphIds, topK, p, r);
    ResultSignals(t, query, qe, cs, graphIds, topK, p);
    ResultSignals(t, query, qe, cs, graphIds, topK, r);
    var found := Rank(t, query, qe, cs, graphIds, topK);
    KeywordScoreBounds(t.tokens(query), t.tokens(found[p].candidate.content));
    KeywordScoreBounds(t.tokens(query), t.tokens(found[r].candidate.content));
  }
}
