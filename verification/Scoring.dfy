/** Aggregate quality metrics and the regression gate: app/eval/scoring.py and `_compare_to_baseline` of
    app/eval/runner.py. */
module Scoring {
  import opened Domain
  import opened Retrieval
  import opened Percentile

  type Expected = Option<Uuid>

  /* ---------- recall and precision ---------- */

  predicate IsHit(expected: Expected, retrieved: seq<Uuid>, k: nat) {
    match expected
    case None => Take(retrieved, k) == []
    case Some(id) => id in Take(retrieved, k)
  }

  /** Hits among the zipped cases. */
  function Hits(expected: seq<Expected>, retrieved: seq<seq<Uuid>>, k: nat): nat {
    if expected == [] || retrieved == [] then 0
    else (if IsHit(expected[0], retrieved[0], k) then 1 else 0) + Hits(expected[1..], retrieved[1..], k)
  }

  function Recall(expected: seq<Expected>, retrieved: seq<seq<Uuid>>, k: nat): real {
    if expected == [] then 0.0 else Hits(expected, retrieved, k) as real / |expected| as real
  }

  function CasePrecision(expected: Expected, retrieved: seq<Uuid>): real {
    if retrieved == [] then if expected.None? then 1.0 else 0.0
    else if expected.None? then 0.0
    else if expected.value in retrieved then 1.0 / |retrieved| as real else 0.0
  }

  function Zipped(expected: seq<Expected>, retrieved: seq<seq<Uuid>>): nat {
    if |expected| <= |retrieved| then |expected| else |retrieved|
  }

  /** The per-case scores, over the zipped prefix. */
  function CaseScores(expected: seq<Expected>, retrieved: seq<seq<Uuid>>): (r: seq<real>)
    ensures |r| == Zipped(expected, retrieved)
    ensures forall i :: 0 <= i < |r| ==> r[i] == CasePrecision(expected[i], retrieved[i])
  {
    seq(Zipped(expected, retrieved), i requires 0 <= i < Zipped(expected, retrieved) =>
      CasePrecision(expected[i], retrieved[i]))
  }

  function Sum(xs: seq<real>): real {
    if xs == [] then 0.0 else xs[0] + Sum(xs[1..])
  }

  /** `None` is the ZeroDivisionError of a non-empty expectation list zipped with no results. */
  function Precision(expected: seq<Expected>, retrieved: seq<seq<Uuid>>): Option<real> {
    if expected == [] then Some(0.0)
    else
      var scores := CaseScores(expected, retrieved);
      if scores == [] then None else Some(Sum(scores) / |scores| as real)
  }

  method RecallAtK(expected: seq<Expected>, retrieved: seq<seq<Uuid>>, k: nat) returns (r: real)
    ensures r == Recall(expected, retrieved, k)
  {
    if expected == [] {
      return 0.0;
    }
    var hits := 0;
    var i := 0;
    while i < |expected| && i < |retrieved|
      invariant 0 <= i <= |expected| && i <= |retrieved|
      invariant hits + Hits(expected[i..], retrieved[i..], k) == Hits(expected, retrieved, k)
    {
      if expected[i].None? {
        hits := hits + if Take(retrieved[i], k) == [] then 1 else 0;
      } else if expected[i].value in Take(retrieved[i], k) {
        hits := hits + 1;
      }
      assert expected[i..][1..] == expected[i + 1..] && retrieved[i..][1..] == retrieved[i + 1..];
      i := i + 1;
    }
    return hits as real / |expected| as real;
  }

  method ComputePrecision(expected: seq<Expected>, retrieved: seq<seq<Uuid>>) returns (r: Option<real>)
    ensures r == Precision(expected, retrieved)
  {
    if expected == [] {
      return Some(0.0);
    }
    var scores: seq<real> := [];
    while |scores| < |expected| && |scores| < |retrieved|
      invariant |scores| <= |expected| && |scores| <= |retrieved|
      invariant forall i :: 0 <= i < |scores| ==> scores[i] == CasePrecision(expected[i], retrieved[i])
    {
      var e, items := expected[|scores|], retrieved[|scores|];
      if items == [] {
        scores := scores + [if e.None? then 1.0 else 0.0];
      } else if e.None? {
        scores := scores + [0.0];
      } else {
        scores := scores + [if e.value in items then 1.0 / |items| as real else 0.0];
      }
    }
    assert scores == CaseScores(expected, retrieved);
    return if scores == [] then None else Some(Sum(scores) / |scores| as real);
  }

  ghost predicate AtMostK(retrieved: seq<seq<Uuid>>, k: nat) {
    forall i :: 0 <= i < |retrieved| ==> |retrieved[i]| <= k
  }

  /** A score between a k-th of the mark and the mark. */
  ghost predicate Within(score: real, mark: real, k: real) { score <= mark <= score * k }

  lemma CaseSandwich(e: Expected, items: seq<Uuid>, k: nat)
    requires k >= 1 && |items| <= k
    ensures Within(CasePrecision(e, items), if IsHit(e, items, k) then 1.0 else 0.0, k as real)
  {
    if items != [] && e.Some? && e.value in items {
      var n, c := |items| as real, CasePrecision(e, items);
      assert n >= 1.0 && c * n == 1.0;
      assert c <= 1.0 && c * k as real >= c * n;
    }
  }

  function HitMarks(expected: seq<Expected>, retrieved: seq<seq<Uuid>>, k: nat): (r: seq<real>)
    ensures |r| == Zipped(expected, retrieved)
    ensures forall i :: 0 <= i < |r| ==> r[i] == if IsHit(expected[i], retrieved[i], k) then 1.0 else 0.0
  {
    seq(Zipped(expected, retrieved), i requires 0 <= i < Zipped(expected, retrieved) =>
      if IsHit(expected[i], retrieved[i], k) then 1.0 else 0.0)
  }

  lemma {:induction false} HitsAreMarks(expected: seq<Expected>, retrieved: seq<seq<Uuid>>, k: nat)
    ensures Sum(HitMarks(expected, retrieved, k)) == Hits(expected, retrieved, k) as real
  {
    if expected != [] && retrieved != [] {
      HitsAreMarks(expected[1..], retrieved[1..], k);
      assert HitMarks(expected, retrieved, k)[1..] == HitMarks(expected[1..], retrieved[1..], k);
    }
  }

  lemma {:induction false} SumSandwich(scores: seq<real>, marks: seq<real>, k: real)
    requires |scores| == |marks|
    requires forall i :: 0 <= i < |scores| ==> Within(scores[i], marks[i], k)
    ensures Within(Sum(scores), Sum(marks), k)
  {
    if scores != [] {
      assert Within(scores[0], marks[0], k);
      SumSandwich(scores[1..], marks[1..], k);
      assert (scores[0] + Sum(scores[1..])) * k == scores[0] * k + Sum(scores[1..]) * k;
    }
  }

  lemma TotalsSandwich(expected: seq<Expected>, retrieved: seq<seq<Uuid>>, k: nat) returns (hits: real, sum: real)
    requires k >= 1 && AtMostK(retrieved, k)
    ensures hits == Hits(expected, retrieved, k) as real && sum == Sum(CaseScores(expected, retrieved))
    ensures Within(sum, hits, k as real)
  {
    var scores, marks := CaseScores(expected, retrieved), HitMarks(expected, retrieved, k);
    forall i | 0 <= i < |scores| ensures Within(scores[i], marks[i], k as real) {
      CaseSandwich(expected[i], retrieved[i], k);
    }
    SumSandwich(scores, marks, k as real);
    HitsAreMarks(expected, retrieved, k);
    hits, sum := Sum(marks), Sum(scores);
  }

  /** Dividing both sums by the number of cases keeps the sandwich. */
  lemma DivideSandwich(h: real, s: real, n: real, k: real)
    requires n > 0.0 && k > 0.0 && Within(s, h, k)
    ensures h / n / k <= s / n <= h / n
  {
    var p, r := s / n, h / n;
    assert p * n == s && r * n == h;
    DivideOut(p, r, n);
    assert (p * k) * n == s * k;
    DivideOut(r, p * k, n);
    var q := r / k;
    assert q * k == r;
    DivideOut(q, p, k);
  }

  /** recall_at_k / k <= precision <= recall_at_k. */
  lemma MetricSandwich(expected: seq<Expected>, retrieved: seq<seq<Uuid>>, k: nat)
    requires |expected| == |retrieved| && k >= 1 && AtMostK(retrieved, k)
    ensures Precision(expected, retrieved).Some?
    ensures Recall(expected, retrieved, k) / k as real <= Precision(expected, retrieved).value
    ensures Precision(expected, retrieved).value <= Recall(expected, retrieved, k)
  {
    if expected != [] {
      var h, s := TotalsSandwich(expected, retrieved, k);
      DivideSandwich(h, s, |expected| as real, k as real);
    }
  }

  lemma DivideOut(a: real, b: real, n: real)
    requires n > 0.0 && a * n <= b * n
    ensures a <= b
  {
    assert (a - b) * n <= 0.0;
  }

  lemma {:induction false} HitsMonotone(expected: seq<Expected>, retrieved: seq<seq<Uuid>>, j: nat, k: nat)
    requires 1 <= j <= k
    ensures Hits(expected, retrieved, j) <= Hits(expected, retrieved, k)
  {
    if expected != [] && retrieved != [] {
      HitsMonotone(expected[1..], retrieved[1..], j, k);
    }
  }

  /** Recall never falls as the cut-off grows, cases that expect nothing included. */
  lemma RecallMonotone(expected: seq<Expected>, retrieved: seq<seq<Uuid>>, j: nat, k: nat)
    requires 1 <= j <= k
    ensures Recall(expected, retrieved, j) <= Recall(expected, retrieved, k)
  {
    HitsMonotone(expected, retrieved, j, k);
    if expected != [] {
      DivideOrder(Hits(expected, retrieved, j) as real, Hits(expected, retrieved, k) as real, |expected| as real);
    }
  }

  /** Cases that expect nothing and got something: hits at cut-off 0 only. */
  function Unwanted(expected: seq<Expected>, retrieved: seq<seq<Uuid>>): nat {
    if expected == [] || retrieved == [] then 0
    else (if expected[0].None? && retrieved[0] != [] then 1 else 0) + Unwanted(expected[1..], retrieved[1..])
  }

  /** Cases whose expected memory is among the first `k` results: never hits at cut-off 0. */
  function Found(expected: seq<Expected>, retrieved: seq<seq<Uuid>>, k: nat): nat {
    if expected == [] || retrieved == [] then 0
    else
      var here := if expected[0].Some? && IsHit(expected[0], retrieved[0], k) then 1 else 0;
      here + Found(expected[1..], retrieved[1..], k)
  }

  lemma {:induction false} HitsAtZero(expected: seq<Expected>, retrieved: seq<seq<Uuid>>, k: nat)
    requires k >= 1
    ensures Hits(expected, retrieved, 0) + Found(expected, retrieved, k)
      == Hits(expected, retrieved, k) + Unwanted(expected, retrieved)
  {
    if expected != [] && retrieved != [] {
      HitsAtZero(expected[1..], retrieved[1..], k);
      assert Take(retrieved[0], 0) == [];
    }
  }

  /** The cut-off 0 is the exception: it is no larger than recall at `k` exactly when the cases that expect nothing but
      got something are no more than the cases found within `k`. */
  lemma RecallAtZeroIff(expected: seq<Expected>, retrieved: seq<seq<Uuid>>, k: nat)
    requires k >= 1
    ensures Recall(expected, retrieved, 0) <= Recall(expected, retrieved, k)
      <==> Unwanted(expected, retrieved) <= Found(expected, retrieved, k)
  {
    HitsAtZero(expected, retrieved, k);
    if expected != [] {
      RatioOrder(Hits(expected, retrieved, 0) as real, Hits(expected, retrieved, k) as real, |expected| as real);
    }
  }

  lemma RatioOrder(a: real, b: real, n: real)
    requires n > 0.0
    ensures a / n <= b / n <==> a <= b
  {
    var x, y := a / n, b / n;
    assert x * n == a && y * n == b;
    if x <= y {
      ScaleOrder(x, y, n);
    } else {
      ScaleStrictly(y, x, n);
    }
  }

  lemma ScaleStrictly(a: real, b: real, n: real)
    requires a < b && n > 0.0
    ensures a * n < b * n
  {
    assert (b - a) * n > 0.0;
  }

  lemma RecallAtZeroIsNotLeast(id: Uuid)
    ensures Recall([None], [[id]], 0) == 1.0 && Recall([None], [[id]], 1) == 0.0
  {
    assert Hits([None], [[id]], 0) == 1 + Hits([None][1..], [[id]][1..], 0);
    assert Hits([None], [[id]], 1) == 0 + Hits([None][1..], [[id]][1..], 1);
  }

  /* ---------- what precision and recall measure ---------- */

  /** The case is a hit: nothing was expected and nothing shown, or the expected id is one of the first `k` shown. */
  ghost predicate Shown(expected: Expected, retrieved: seq<Uuid>, k: nat) {
    match expected
    case None => k == 0 || retrieved == []
    case Some(id) => exists p :: 0 <= p < k && p < |retrieved| && retrieved[p] == id
  }

  ghost function HitCases(expected: seq<Expected>, retrieved: seq<seq<Uuid>>, k: nat): set<int>
    requires |expected| == |retrieved|
  {
    set i | 0 <= i < |expected| && Shown(expected[i], retrieved[i], k)
  }

  lemma ShownIsHit(e: Expected, items: seq<Uuid>, k: nat)
    ensures Shown(e, items, k) <==> IsHit(e, items, k)
  {
    if e.Some? && Shown(e, items, k) {
      var p :| 0 <= p < k && p < |items| && items[p] == e.value;
      assert Take(items, k)[p] == e.value;
    }
    if e.Some? && IsHit(e, items, k) {
      var p :| 0 <= p < |Take(items, k)| && Take(items, k)[p] == e.value;
      assert items[p] == e.value;
    }
  }

  lemma {:induction false} HitsPush(e: seq<Expected>, r: seq<seq<Uuid>>, x: Expected, items: seq<Uuid>, k: nat)
    requires |e| == |r|
    ensures Hits(e + [x], r + [items], k) == Hits(e, r, k) + if IsHit(x, items, k) then 1 else 0
  {
    if e == [] {
      assert ([] + [x])[1..] == [] && ([] + [items])[1..] == [];
    } else {
      assert (e + [x])[1..] == e[1..] + [x] && (r + [items])[1..] == r[1..] + [items];
      HitsPush(e[1..], r[1..], x, items, k);
    }
  }

  lemma OneMore(s: set<int>, n: int, yes: bool)
    requires n !in s
    ensures |s + if yes then {n} else {}| == |s| + if yes then 1 else 0
  {
  }

  lemma LastCase(e: seq<Expected>, r: seq<seq<Uuid>>, k: nat, n: nat)
    requires |e| == |r| == n + 1
    ensures HitCases(e, r, k) == HitCases(e[..n], r[..n], k) + if Shown(e[n], r[n], k) then {n} else {}
  {
  }

  lemma {:induction false} HitsAreCases(e: seq<Expected>, r: seq<seq<Uuid>>, k: nat)
    requires |e| == |r|
    ensures Hits(e, r, k) == |HitCases(e, r, k)|
  {
    if e == [] {
      assert HitCases(e, r, k) == {};
    } else {
      var n := |e| - 1;
      HitsAreCases(e[..n], r[..n], k);
      HitsPush(e[..n], r[..n], e[n], r[n], k);
      ShownIsHit(e[n], r[n], k);
      assert e == e[..n] + [e[n]] && r == r[..n] + [r[n]];
      LastCase(e, r, k, n);
      OneMore(HitCases(e[..n], r[..n], k), n, Shown(e[n], r[n], k));
    }
  }

  /** Recall is the share of cases that are hits. */
  lemma RecallIsShare(e: seq<Expected>, r: seq<seq<Uuid>>, k: nat)
    requires |e| == |r| && e != []
    ensures Recall(e, r, k) == |HitCases(e, r, k)| as real / |e| as real
  {
    HitsAreCases(e, r, k);
  }

  lemma DivideBack(a: real, n: real)
    requires n != 0.0
    ensures a / n * n == a
  {
  }

  lemma {:induction false} SumPush(xs: seq<real>, x: real)
    ensures Sum(xs + [x]) == Sum(xs) + x
  {
    if xs == [] {
      assert ([] + [x])[1..] == [];
    } else {
      assert (xs + [x])[1..] == xs[1..] + [x];
      SumPush(xs[1..], x);
    }
  }

  lemma PrecisionTotal(e: seq<Expected>, r: seq<seq<Uuid>>)
    requires |e| == |r| && e != []
    ensures Precision(e, r).Some? && Precision(e, r).value * |e| as real == Sum(CaseScores(e, r))
  {
    DivideBack(Sum(CaseScores(e, r)), |e| as real);
  }

  /** One case alone: a full mark for rightly showing nothing, the inverse of the number of results for showing the
      expected memory among them, and nothing otherwise. */
  lemma PrecisionOfOne(e: Expected, items: seq<Uuid>)
    ensures Precision([e], [items]).Some?
    ensures
      var p := Precision([e], [items]).value;
      if items == [] then p == if e.None? then 1.0 else 0.0
      else if e.Some? && e.value in items then p * |items| as real == 1.0
      else p == 0.0
  {
    assert CaseScores([e], [items])[1..] == [];
    PrecisionTotal([e], [items]);
    if items != [] { DivideBack(1.0, |items| as real); }
  }

  lemma ScoresPush(e: seq<Expected>, r: seq<seq<Uuid>>, x: Expected, items: seq<Uuid>)
    requires |e| == |r|
    ensures Sum(CaseScores(e + [x], r + [items])) == Sum(CaseScores(e, r)) + Sum(CaseScores([x], [items]))
  {
    assert CaseScores(e + [x], r + [items]) == CaseScores(e, r) + [CasePrecision(x, items)];
    SumPush(CaseScores(e, r), CasePrecision(x, items));
    assert CaseScores([x], [items]) == [CasePrecision(x, items)];
    assert Sum([CasePrecision(x, items)]) == CasePrecision(x, items) + Sum([CasePrecision(x, items)][1..]);
  }

  /** Precision is the mean over the cases. */
  lemma PrecisionIsMean(e: seq<Expected>, r: seq<seq<Uuid>>, x: Expected, items: seq<Uuid>)
    requires |e| == |r| && e != []
    ensures Precision(e, r).Some? && Precision(e + [x], r + [items]).Some? && Precision([x], [items]).Some?
    ensures Precision(e + [x], r + [items]).value * (|e| + 1) as real
      == Precision(e, r).value * |e| as real + Precision([x], [items]).value
  {
    PrecisionTotal(e, r);
    PrecisionTotal(e + [x], r + [items]);
    PrecisionTotal([x], [items]);
    ScoresPush(e, r, x, items);
  }

  /** A result more, next to the expected one, strictly lowers the precision of its case. */
  lemma MoreResultsLessPrecise(x: Uuid, items: seq<Uuid>, y: Uuid)
    requires x in items
    ensures Precision([Some(x)], [items]).Some? && Precision([Some(x)], [items + [y]]).Some?
    ensures Precision([Some(x)], [items + [y]]).value < Precision([Some(x)], [items]).value
  {
    PrecisionOfOne(Some(x), items);
    PrecisionOfOne(Some(x), items + [y]);
    InverseFalls(Precision([Some(x)], [items]).value, Precision([Some(x)], [items + [y]]).value, |items| as real);
  }

  lemma InverseFalls(p: real, q: real, n: real)
    requires n >= 1.0 && p * n == 1.0 && q * (n + 1.0) == 1.0
    ensures q < p
  {
    PositiveFactor(q, n + 1.0);
    assert q * (n + 1.0) == q * n + q;
    StrictlyLess(q, p, n);
  }

  lemma PositiveFactor(x: real, n: real)
    requires n > 0.0 && x * n == 1.0
    ensures x > 0.0
  {
  }

  lemma StrictlyLess(a: real, b: real, n: real)
    requires n > 0.0 && a * n < b * n
    ensures a < b
  {
    assert (a - b) * n < 0.0;
  }

  ghost predicate AllExpectOf(e: seq<Expected>, r: seq<seq<Uuid>>, n: nat) {
    |e| == |r| && forall i :: 0 <= i < |e| ==> e[i].Some? && |r[i]| == n
  }

  ghost predicate Times(score: real, n: real, mark: real) { score * n == mark }

  lemma UniformCase(e: Expected, items: seq<Uuid>, n: nat)
    requires n >= 1 && e.Some? && |items| == n
    ensures Times(CasePrecision(e, items), n as real, if IsHit(e, items, n) then 1.0 else 0.0)
  {
    DivideBack(1.0, n as real);
  }

  lemma {:induction false} SumTimes(scores: seq<real>, marks: seq<real>, n: real)
    requires |scores| == |marks| && forall i :: 0 <= i < |scores| ==> Times(scores[i], n, marks[i])
    ensures Times(Sum(scores), n, Sum(marks))
  {
    if scores != [] {
      assert Times(scores[0], n, marks[0]);
      SumTimes(scores[1..], marks[1..], n);
      assert (scores[0] + Sum(scores[1..])) * n == scores[0] * n + Sum(scores[1..]) * n;
    }
  }

  lemma UniformTotals(e: seq<Expected>, r: seq<seq<Uuid>>, n: nat)
    requires n >= 1 && AllExpectOf(e, r, n)
    ensures Times(Sum(CaseScores(e, r)), n as real, Hits(e, r, n) as real)
  {
    forall i | 0 <= i < |e| ensures Times(CaseScores(e, r)[i], n as real, HitMarks(e, r, n)[i]) {
      UniformCase(e[i], r[i], n);
    }
    SumTimes(CaseScores(e, r), HitMarks(e, r, n), n as real);
    HitsAreMarks(e, r, n);
  }

  /** When every case expects something and shows exactly `n` results, precision is recall divided by `n`. */
  lemma UniformPrecision(e: seq<Expected>, r: seq<seq<Uuid>>, n: nat)
    requires n >= 1 && AllExpectOf(e, r, n)
    ensures Precision(e, r).Some? && Precision(e, r).value * n as real == Recall(e, r, n)
  {
    if e != [] {
      UniformTotals(e, r, n);
      MeanTimes(Sum(CaseScores(e, r)), |e| as real, n as real, Hits(e, r, n) as real);
    }
  }

  lemma MeanTimes(s: real, m: real, n: real, h: real)
    requires m > 0.0 && Times(s, n, h)
    ensures s / m * n == h / m
  {
    var x, y := s / m, h / m;
    assert x * m == s && y * m == h;
    assert (x * n) * m == (x * m) * n;
    FactorOut(x * n, y, m);
  }

  lemma FactorOut(a: real, b: real, m: real)
    requires m > 0.0 && a * m == b * m
    ensures a == b
  {
    assert (a - b) * m == 0.0;
  }

  /* ---------- failure rates ---------- */

  datatype FailureMode = NoFailure | RetrievalMiss | StaleFact | FalseFact

  function CountMode(modes: seq<FailureMode>, target: FailureMode): nat {
    if modes == [] then 0 else (if modes[0] == target then 1 else 0) + CountMode(modes[1..], target)
  }

  function Rate(modes: seq<FailureMode>, target: FailureMode): real {
    if modes == [] then 0.0 else CountMode(modes, target) as real / |modes| as real
  }

  lemma {:induction false} RateZero(modes: seq<FailureMode>, target: FailureMode)
    requires target !in modes
    ensures CountMode(modes, target) == 0 && Rate(modes, target) == 0.0
  {
    if modes != [] { RateZero(modes[1..], target); }
  }

  ghost function CasesWith(modes: seq<FailureMode>, target: FailureMode): set<int> {
    set i | 0 <= i < |modes| && modes[i] == target
  }

  lemma {:induction false} CountPushMode(modes: seq<FailureMode>, m: FailureMode, target: FailureMode)
    ensures CountMode(modes + [m], target) == CountMode(modes, target) + if m == target then 1 else 0
  {
    if modes == [] {
      assert ([] + [m])[1..] == [];
    } else {
      assert (modes + [m])[1..] == modes[1..] + [m];
      CountPushMode(modes[1..], m, target);
    }
  }

  lemma LastMode(modes: seq<FailureMode>, target: FailureMode, n: nat)
    requires |modes| == n + 1
    ensures CasesWith(modes, target) == CasesWith(modes[..n], target) + if modes[n] == target then {n} else {}
  {
  }

  lemma {:induction false} CountIsCases(modes: seq<FailureMode>, target: FailureMode)
    ensures CountMode(modes, target) == |CasesWith(modes, target)|
  {
    if modes == [] {
      assert CasesWith(modes, target) == {};
    } else {
      var n := |modes| - 1;
      CountIsCases(modes[..n], target);
      CountPushMode(modes[..n], modes[n], target);
      assert modes == modes[..n] + [modes[n]];
      LastMode(modes, target, n);
      OneMore(CasesWith(modes[..n], target), n, modes[n] == target);
    }
  }

  /** A rate is the share of cases with that verdict. */
  lemma RateIsShare(modes: seq<FailureMode>, target: FailureMode)
    requires modes != []
    ensures Rate(modes, target) == |CasesWith(modes, target)| as real / |modes| as real
  {
    CountIsCases(modes, target);
  }

  /** Without cases, or samples, every metric is 0. */
  lemma NothingScoresZero(r: seq<seq<Uuid>>, k: nat, target: FailureMode)
    ensures Recall([], r, k) == 0.0 && Precision([], r) == Some(0.0) && Rate([], target) == 0.0 && P95([]) == 0.0
  {
  }

  /* ---------- the gate ---------- */

  datatype Metrics = Metrics(
    recallAt5: real, precision: real, stalenessRate: real, falseFactRate: real, p95Search: real, p95Add: real,
    totalCases: nat)

  datatype Baseline = Baseline(runId: Option<string>, recallAt5: real, falseFactRate: real, p95Search: real)

  /** `_compare_to_baseline`. */
  function CompareToBaseline(m: Metrics, baseline: Option<Baseline>, setBaseline: bool): (bool, Option<string>) {
    if baseline.None? || setBaseline then (true, None)
    else
      var b := baseline.value;
      (m.recallAt5 >= b.recallAt5 - 0.05 && m.p95Search <= b.p95Search * 1.25
        && m.falseFactRate <= b.falseFactRate, b.runId)
  }

  /** Without a baseline, or when the run is to set it, the gate passes and names no baseline. */
  lemma FirstRunPasses(m: Metrics, baseline: Option<Baseline>, setBaseline: bool)
    requires baseline.None? || setBaseline
    ensures CompareToBaseline(m, baseline, setBaseline) == (true, None)
  {
  }

  /** A run at least as good in every gated metric passes whenever a worse one does. */
  lemma BetterNeverFails(m: Metrics, m': Metrics, baseline: Option<Baseline>, setBaseline: bool)
    requires m'.recallAt5 >= m.recallAt5 && m'.p95Search <= m.p95Search && m'.falseFactRate <= m.falseFactRate
    ensures CompareToBaseline(m, baseline, setBaseline).0 ==> CompareToBaseline(m', baseline, setBaseline).0
  {
  }

  /** Worse search latencies never turn a failing gate into a passing one. */
  lemma SlowerNeverPasses(m: Metrics, baseline: Option<Baseline>, setBaseline: bool, fast: seq<real>, slow: seq<real>)
    requires Pointwise(fast, slow)
    ensures CompareToBaseline(m.(p95Search := P95(slow)), baseline, setBaseline).0
      ==> CompareToBaseline(m.(p95Search := P95(fast)), baseline, setBaseline).0
  {
    P95Monotone(fast, slow);
    BetterNeverFails(m.(p95Search := P95(slow)), m.(p95Search := P95(fast)), baseline, setBaseline);
  }

  /** One evaluation: its id, its metrics, and whether it was asked to set the baseline. */
  datatype GatedRun = GatedRun(runId: string, metrics: Metrics, setBaseline: bool)

  function BaselineOf(r: GatedRun): Baseline {
    Baseline(Some(r.runId), r.metrics.recallAt5, r.metrics.falseFactRate, r.metrics.p95Search)
  }

  /** The baseline file after the first `n` runs: written when asked for, or when there was none. */
  function BaselineAfter(runs: seq<GatedRun>, n: nat): Option<Baseline>
    requires n <= |runs|
  {
    if n == 0 then None
    else
      var before := BaselineAfter(runs, n - 1);
      if runs[n - 1].setBaseline || before.None? then Some(BaselineOf(runs[n - 1])) else before
  }

  lemma {:induction false} BaselineOrigin(runs: seq<GatedRun>, n: nat) returns (k: nat)
    requires 0 < n <= |runs|
    ensures k < n && (k == 0 || runs[k].setBaseline)
    ensures forall j :: k < j < n ==> !runs[j].setBaseline
    ensures BaselineAfter(runs, n) == Some(BaselineOf(runs[k]))
  {
    if runs[n - 1].setBaseline || n == 1 {
      k := n - 1;
    } else {
      k := BaselineOrigin(runs, n - 1);
    }
  }

  /** The gate does not drift: however many runs passed in between, a run is held to the metrics of the run that last
      set the baseline, or of the very first one. */
  lemma GateDoesNotDrift(runs: seq<GatedRun>, n: nat) returns (k: nat)
    requires 0 < n < |runs| && !runs[n].setBaseline
    ensures k < n && (k == 0 || runs[k].setBaseline) && forall j :: k < j <= n ==> !runs[j].setBaseline
    ensures
      var (passed, baselineId) := CompareToBaseline(runs[n].metrics, BaselineAfter(runs, n), false);
      var m, b := runs[n].metrics, runs[k].metrics;
      && baselineId == Some(runs[k].runId)
      && (passed <==>
            && b.recallAt5 - m.recallAt5 <= 0.05
            && m.p95Search <= 1.25 * b.p95Search
            && m.falseFactRate <= b.falseFactRate)
  {
    k := BaselineOrigin(runs, n);
  }
}
