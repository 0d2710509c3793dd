/** The two 95th-percentile routines: `p95` of app/eval/scoring.py (Python's inclusive `statistics.quantiles`) and
    `_pct` of scripts/loadtest.py, in exact arithmetic. */
module Percentile {

  ghost predicate Sorted(s: seq<real>) {
    forall i, j :: 0 <= i < j < |s| ==> s[i] <= s[j]
  }

  ghost predicate Pointwise(a: seq<real>, b: seq<real>) {
    |a| == |b| && forall i :: 0 <= i < |a| ==> a[i] <= b[i]
  }

  function InsertSorted(x: real, s: seq<real>): (r: seq<real>)
    requires Sorted(s)
    ensures Sorted(r) && |r| == |s| + 1
    ensures r[0] == if s == [] || x <= s[0] then x else s[0]
  {
    if s == [] then [x]
    else if x <= s[0] then [x] + s
    else [s[0]] + InsertSorted(x, s[1..])
  }

  lemma {:induction false} InsertPermutes(x: real, s: seq<real>)
    requires Sorted(s)
    ensures multiset(InsertSorted(x, s)) == multiset(s) + multiset{x}
  {
    if s != [] && x > s[0] {
      InsertPermutes(x, s[1..]);
      assert s == [s[0]] + s[1..];
    }
  }

  /** `sorted(values)`: the sorted permutation. */
  function SortedOf(values: seq<real>): (r: seq<real>)
    ensures Sorted(r) && |r| == |values|
    ensures multiset(r) == multiset(values)
  {
    if values == [] then []
    else
      assert values == [values[0]] + values[1..];
      InsertPermutes(values[0], SortedOf(values[1..]));
      InsertSorted(values[0], SortedOf(values[1..]))
  }

  /** The point `d / n` of the way from `a` to `b`, as `quantiles` writes it. */
  function Blend(a: real, b: real, d: nat, n: nat): real
    requires d < n
  {
    (a * (n - d) as real + b * d as real) / n as real
  }

  lemma ScaleOrder(a: real, b: real, w: real)
    requires a <= b && w >= 0.0
    ensures a * w <= b * w
  {
    assert (b - a) * w >= 0.0;
  }

  lemma DivideOrder(a: real, b: real, n: real)
    requires a <= b && n > 0.0
    ensures a / n <= b / n
  {
    assert a / n - b / n == (a - b) / n;
  }

  lemma BlendMonotone(a: real, b: real, a': real, b': real, d: nat, n: nat)
    requires d < n && a <= a' && b <= b'
    ensures Blend(a, b, d, n) <= Blend(a', b', d, n)
  {
    var x, y := (n - d) as real, d as real;
    ScaleOrder(a, a', x);
    ScaleOrder(b, b', y);
    DivideOrder(a * x + b * y, a' * x + b' * y, n as real);
  }

  lemma ScaleBack(z: real, y: real)
    requires y > 0.0
    ensures z * y / y == z
  {
  }

  lemma BlendExpands(a: real, b: real, x: real, y: real, f: real)
    requires f * y == x
    ensures a * (y - x) + b * x == (a + (b - a) * f) * y
  {
    var g := b - a;
    assert g * x == (g * f) * y;
    assert (a + g * f) * y == a * y + (g * f) * y;
    assert a * (y - x) + b * x == a * y + g * x;
  }

  lemma BlendInterpolates(a: real, b: real, d: nat, n: nat)
    requires d < n
    ensures Blend(a, b, d, n) == a + (b - a) * (d as real / n as real)
  {
    var x, y := d as real, n as real;
    assert (n - d) as real == y - x;
    var f := x / y;
    BlendExpands(a, b, x, y, f);
    ScaleBack(a + (b - a) * f, y);
  }

  /** `divmod(i * m, n)`. */
  function CutIndex(i: nat, m: nat, n: nat): nat
    requires n > 0
  {
    i * m / n
  }

  function CutRest(i: nat, m: nat, n: nat): (d: nat)
    requires n > 0
    ensures d < n
  {
    i * m % n
  }

  /** Cut point `i` of `quantiles(data, n=n, method="inclusive")` on sorted data. */
  function InclusiveQuantile(data: seq<real>, n: nat, i: nat): real
    requires |data| >= 2 && 1 <= i < n
  {
    CutInRange(i, |data| - 1, n);
    BlendAt(data, CutIndex(i, |data| - 1, n), CutRest(i, |data| - 1, n), n)
  }

  /** Between samples `j` and `j + 1`. */
  function BlendAt(data: seq<real>, j: nat, d: nat, n: nat): real
    requires j + 1 < |data| && d < n
  {
    Blend(data[j], data[j + 1], d, n)
  }

  /** The cut index never reaches the last sample. */
  lemma CutInRange(i: nat, m: nat, n: nat)
    requires 1 <= i < n && m >= 1
    ensures CutIndex(i, m, n) < m
  {
    var q, r := i * m / n, i * m % n;
    assert i * m == n * q + r;
    assert i * m < n * m;
    assert n * q < n * m;
    if q >= m { ProductLower(n, m, q); }
  }

  lemma ProductLower(n: nat, m: nat, q: int)
    requires m <= q
    ensures n * m <= n * q
  {
  }

  function P95(values: seq<real>): real {
    if values == [] then 0.0
    else if |values| == 1 then values[0]
    else InclusiveQuantile(SortedOf(values), 20, 19)
  }

  /** `_pct`'s fractional rank in a list whose last index is `last`. */
  function PctRank(pct: real, last: nat): real { pct / 100.0 * last as real }

  /** The point `frac` of the way from sample `low` to the next one, or to itself at the end. */
  function PctAt(ordered: seq<real>, low: nat, frac: real): real
    requires low < |ordered|
  {
    var last := |ordered| - 1;
    var high := if low + 1 <= last then low + 1 else last;
    ordered[low] + (ordered[high] - ordered[low]) * frac
  }

  function Pct(ordered: seq<real>, pct: real): real
    requires 0.0 <= pct <= 100.0
  {
    if ordered == [] then 0.0
    else
      var rank := PctRank(pct, |ordered| - 1);
      RankInRange(pct, |ordered| - 1);
      PctAt(ordered, rank.Floor, rank - rank.Floor as real)
  }

  lemma RankInRange(pct: real, last: nat)
    requires 0.0 <= pct <= 100.0
    ensures 0.0 <= PctRank(pct, last) <= last as real
  {
    var p := pct / 100.0;
    assert 0.0 <= p <= 1.0;
  }

  lemma RankSplits(m: nat)
    ensures PctRank(95.0, m).Floor == CutIndex(19, m, 20)
    ensures PctRank(95.0, m) - CutIndex(19, m, 20) as real == CutRest(19, m, 20) as real / 20.0
  {
    var j, d := CutIndex(19, m, 20), CutRest(19, m, 20);
    assert 19 * m == 20 * j + d;
    var rank := PctRank(95.0, m);
    assert 20.0 * rank == 19.0 * m as real == (20 * j + d) as real;
    assert rank == j as real + d as real / 20.0;
  }

  /** The report's percentile and the load driver's agree on every list. */
  lemma PercentilesAgree(values: seq<real>)
    ensures P95(values) == Pct(SortedOf(values), 95.0)
  {
    var s := SortedOf(values);
    if |values| == 1 {
      SingleSample(values);
    } else if |values| >= 2 {
      CutInRange(19, |values| - 1, 20);
      PctInterpolates(s);
    }
  }

  lemma PctAtBlends(s: seq<real>, j: nat, d: nat, n: nat)
    requires j + 1 < |s| && d < n
    ensures PctAt(s, j, d as real / n as real) == Blend(s[j], s[j + 1], d, n)
  {
    BlendInterpolates(s[j], s[j + 1], d, n);
  }

  lemma PctInterpolates(s: seq<real>)
    requires |s| >= 2 && CutIndex(19, |s| - 1, 20) < |s| - 1
    ensures Pct(s, 95.0) == BlendAt(s, CutIndex(19, |s| - 1, 20), CutRest(19, |s| - 1, 20), 20)
  {
    var m := |s| - 1;
    var rank, j, d := PctRank(95.0, m), CutIndex(19, m, 20), CutRest(19, m, 20);
    RankSplits(m);
    assert rank.Floor == j;
    assert rank - j as real == d as real / 20.0;
    assert Pct(s, 95.0) == PctAt(s, j, d as real / 20.0);
    PctAtBlends(s, j, d, 20);
  }

  lemma BlendConstant(a: real, d: nat, n: nat)
    requires d < n
    ensures Blend(a, a, d, n) == a
  {
    BlendInterpolates(a, a, d, n);
  }

  lemma BlendBetween(low: real, a: real, b: real, high: real, d: nat, n: nat)
    requires d < n && low <= a <= b <= high
    ensures low <= a <= Blend(a, b, d, n) <= high
  {
    BlendMonotone(a, a, a, b, d, n);
    BlendMonotone(a, b, high, high, d, n);
    BlendConstant(a, d, n);
    BlendConstant(high, d, n);
  }

  lemma SortedOrder(s: seq<real>, i: nat, j: nat)
    requires Sorted(s) && i <= j < |s|
    ensures s[i] <= s[j]
  {
  }

  /** The percentile lies between the two samples it interpolates. */
  lemma P95Between(values: seq<real>)
    requires |values| >= 2
    ensures
      var s, j := SortedOf(values), CutIndex(19, |values| - 1, 20);
      j + 1 < |s| && s[j] <= P95(values) <= s[j + 1]
  {
    var s, m := SortedOf(values), |values| - 1;
    var j, d := CutIndex(19, m, 20), CutRest(19, m, 20);
    CutInRange(19, m, 20);
    var low, high := s[j], s[j + 1];
    SortedOrder(s, j, j + 1);
    BlendBetween(low, low, high, high, d, 20);
    assert P95(values) == Blend(low, high, d, 20);
  }

  lemma SingleSample(values: seq<real>)
    requires |values| == 1
    ensures SortedOf(values) == values && P95(values) == values[0]
  {
    assert values == [values[0]];
    assert SortedOf(values[1..]) == [];
  }

  lemma ExtremesBound(s: seq<real>, j: nat, x: real)
    requires Sorted(s) && j + 1 < |s| && s[j] <= x <= s[j + 1]
    ensures s[0] <= x <= s[|s| - 1]
  {
    SortedOrder(s, 0, j);
    SortedOrder(s, j + 1, |s| - 1);
  }

  lemma RangeOfMany(values: seq<real>)
    requires |values| >= 2
    ensures SortedOf(values)[0] <= P95(values) <= SortedOf(values)[|values| - 1]
  {
    var s, j, x := SortedOf(values), CutIndex(19, |values| - 1, 20), P95(values);
    P95Between(values);
    assert j + 1 < |s| && s[j] <= x <= s[j + 1];
    ExtremesBound(s, j, x);
  }

  /** The percentile never leaves the range of the samples. */
  lemma P95WithinRange(values: seq<real>)
    requires values != []
    ensures SortedOf(values)[0] <= P95(values) <= SortedOf(values)[|values| - 1]
  {
    if |values| == 1 {
      SingleSample(values);
    } else {
      RangeOfMany(values);
    }
  }

  /* ---------- monotonicity ---------- */

  lemma {:induction false} InsertMonotone(x: real, s: seq<real>, y: real, t: seq<real>)
    requires Sorted(s) && Sorted(t) && Pointwise(s, t) && x <= y
    ensures Pointwise(InsertSorted(x, s), InsertSorted(y, t))
    decreases |s|
  {
    if s != [] {
      if x <= s[0] && y > t[0] {
        InsertMonotone(s[0], s[1..], y, t[1..]);
        InsertHead(s);
        PointwiseCons(x, s, t[0], InsertSorted(y, t[1..]));
      } else if x > s[0] && y <= t[0] {
        InsertMonotone(x, s[1..], t[0], t[1..]);
        InsertHead(t);
        PointwiseCons(s[0], InsertSorted(x, s[1..]), y, t);
      } else if x > s[0] {
        InsertMonotone(x, s[1..], y, t[1..]);
        PointwiseCons(s[0], InsertSorted(x, s[1..]), t[0], InsertSorted(y, t[1..]));
      } else {
        PointwiseCons(x, s, y, t);
      }
    }
  }

  lemma PointwiseCons(x: real, a: seq<real>, y: real, b: seq<real>)
    requires x <= y && Pointwise(a, b)
    ensures Pointwise([x] + a, [y] + b)
  {
  }

  lemma InsertHead(s: seq<real>)
    requires Sorted(s) && s != []
    ensures InsertSorted(s[0], s[1..]) == s
  {
  }

  lemma {:induction false} SortMonotone(a: seq<real>, b: seq<real>)
    requires Pointwise(a, b)
    ensures Pointwise(SortedOf(a), SortedOf(b))
  {
    if a != [] {
      SortMonotone(a[1..], b[1..]);
      InsertMonotone(a[0], SortedOf(a[1..]), b[0], SortedOf(b[1..]));
    }
  }

  /** Raising any of the samples never lowers the percentile. */
  lemma P95Monotone(a: seq<real>, b: seq<real>)
    requires Pointwise(a, b)
    ensures P95(a) <= P95(b)
  {
    if |a| >= 2 {
      SortMonotone(a, b);
      var m := |a| - 1;
      var j, d := CutIndex(19, m, 20), CutRest(19, m, 20);
      CutInRange(19, m, 20);
      BlendMonotone(SortedOf(a)[j], SortedOf(a)[j + 1], SortedOf(b)[j], SortedOf(b)[j + 1], d, 20);
    }
  }

  /* ---------- how many samples exceed it ---------- */

  function CountAbove(values: seq<real>, x: real): nat {
    if values == [] then 0 else (if values[0] > x then 1 else 0) + CountAbove(values[1..], x)
  }

  lemma {:induction false} InsertCount(y: real, s: seq<real>, x: real)
    requires Sorted(s)
    ensures CountAbove(InsertSorted(y, s), x) == CountAbove(s, x) + if y > x then 1 else 0
  {
    if s == [] {
      assert [y][1..] == [];
    } else if y <= s[0] {
      assert ([y] + s)[1..] == s;
    } else {
      InsertCount(y, s[1..], x);
      assert ([s[0]] + InsertSorted(y, s[1..]))[1..] == InsertSorted(y, s[1..]);
    }
  }

  lemma {:induction false} SortCount(values: seq<real>, x: real)
    ensures CountAbove(SortedOf(values), x) == CountAbove(values, x)
  {
    if values != [] {
      SortCount(values[1..], x);
      InsertCount(values[0], SortedOf(values[1..]), x);
    }
  }

  lemma {:induction false} CountSorted(s: seq<real>, x: real, j: nat)
    requires Sorted(s) && j < |s| && s[j] <= x
    ensures CountAbove(s, x) <= |s| - 1 - j
  {
    if j > 0 {
      CountSorted(s[1..], x, j - 1);
    } else {
      CountAtMostLength(s[1..], x);
    }
  }

  lemma {:induction false} CountAtMostLength(s: seq<real>, x: real)
    ensures CountAbove(s, x) <= |s|
  {
    if s != [] { CountAtMostLength(s[1..], x); }
  }

  /** At most one sample in twenty, rounded up, lies strictly above the percentile. */
  lemma FewAboveP95(values: seq<real>)
    requires values != []
    ensures 20 * CountAbove(values, P95(values)) <= |values| - 1 + 19
  {
    if |values| == 1 {
      assert values[1..] == [];
    } else {
      var s, m := SortedOf(values), |values| - 1;
      var j, d := CutIndex(19, m, 20), CutRest(19, m, 20);
      assert 20 * j + d == 19 * m;
      P95Between(values);
      CountSorted(s, P95(values), j);
      SortCount(values, P95(values));
    }
  }

  function CountBelow(values: seq<real>, x: real): nat {
    if values == [] then 0 else (if values[0] < x then 1 else 0) + CountBelow(values[1..], x)
  }

  lemma {:induction false} InsertBelow(y: real, s: seq<real>, x: real)
    requires Sorted(s)
    ensures CountBelow(InsertSorted(y, s), x) == CountBelow(s, x) + if y < x then 1 else 0
  {
    if s == [] {
      assert [y][1..] == [];
    } else if y <= s[0] {
      assert ([y] + s)[1..] == s;
    } else {
      InsertBelow(y, s[1..], x);
      assert ([s[0]] + InsertSorted(y, s[1..]))[1..] == InsertSorted(y, s[1..]);
    }
  }

  lemma {:induction false} SortBelow(values: seq<real>, x: real)
    ensures CountBelow(SortedOf(values), x) == CountBelow(values, x)
  {
    if values != [] {
      SortBelow(values[1..], x);
      InsertBelow(values[0], SortedOf(values[1..]), x);
    }
  }

  lemma {:induction false} NoneBelow(s: seq<real>, x: real)
    requires Sorted(s) && (s != [] ==> x <= s[0])
    ensures CountBelow(s, x) == 0
  {
    if s != [] { NoneBelow(s[1..], x); }
  }

  lemma {:induction false} BelowSorted(s: seq<real>, x: real, j: nat)
    requires Sorted(s) && j < |s| && x <= s[j]
    ensures CountBelow(s, x) <= j
  {
    if j == 0 {
      NoneBelow(s, x);
    } else {
      BelowSorted(s[1..], x, j - 1);
    }
  }

  lemma BelowByIndex(values: seq<real>)
    requires |values| >= 2
    ensures CountBelow(values, P95(values)) <= CutIndex(19, |values| - 1, 20) + 1
  {
    P95Between(values);
    BelowSorted(SortedOf(values), P95(values), CutIndex(19, |values| - 1, 20) + 1);
    SortBelow(values, P95(values));
  }

  lemma CutBound(m: nat)
    ensures 20 * CutIndex(19, m, 20) <= 19 * m
  {
  }

  /** And no more than nineteen in twenty of the others lie strictly below it, again rounded up. */
  lemma MostBelowP95(values: seq<real>)
    requires values != []
    ensures 20 * CountBelow(values, P95(values)) <= 19 * (|values| - 1) + 20
  {
    if |values| == 1 {
      assert values[1..] == [];
    } else {
      BelowByIndex(values);
      CutBound(|values| - 1);
    }
  }

  /** Of two samples it is nineteen twentieths of the way from the smaller to the larger. */
  lemma P95OfTwo(a: real, b: real)
    requires a <= b
    ensures P95([a, b]) == P95([b, a]) == a + 0.95 * (b - a)
  {
    SortTwo(a, b);
    assert CutIndex(19, 1, 20) == 0 && CutRest(19, 1, 20) == 19;
    BlendInterpolates(a, b, 19, 20);
  }

  lemma SortTwo(a: real, b: real)
    requires a <= b
    ensures SortedOf([a, b]) == [a, b] && SortedOf([b, a]) == [a, b]
  {
    assert [a, b][1..] == [b] && [b, a][1..] == [a];
    SingleSample([a]);
    SingleSample([b]);
    assert [a][1..] == [];
  }
}
