/** The fixed-window rate limiter: app/security.py.  Times are seconds since the epoch. */
module RateLimit {
  import opened Domain
  import opened CacheKeys

  /* ---------- windows ---------- */

  /** `int(time.time()) // window_seconds`. */
  function Window(now: real, width: nat): int
    requires width > 0
  {
    now.Floor / width
  }

  /** Python's `now % width` for a non-negative `now`. */
  function Remainder(now: real, width: nat): real
    requires width > 0
  {
    now - width as real * (now / width as real).Floor as real
  }

  function WindowStart(now: real, width: nat): real
    requires width > 0
  {
    now - Remainder(now, width)
  }

  lemma WindowBounds(now: real, width: nat)
    requires width > 0
    ensures (width * Window(now, width)) as real <= now < (width * (Window(now, width) + 1)) as real
  {
    var f := now.Floor;
    var q := f / width;
    assert width * q <= f < width * q + width;
    assert width * (q + 1) == width * q + width;
    assert f as real <= now < f as real + 1.0;
    assert f + 1 <= width * (q + 1);
    assert (f + 1) as real <= (width * (q + 1)) as real;
  }

  lemma QuotientFloor(now: real, w: real, q: int)
    requires w > 0.0 && w * q as real <= now < w * (q as real + 1.0)
    ensures (now / w).Floor == q
  {
    var x := now / w;
    assert x * w == now;
    LessByFactor(q as real, x, w);
    LessByFactorStrict(x, q as real + 1.0, w);
  }

  lemma LessByFactor(a: real, b: real, w: real)
    requires w > 0.0 && a * w <= b * w
    ensures a <= b
  {
    assert (a - b) * w <= 0.0;
  }

  lemma LessByFactorStrict(a: real, b: real, w: real)
    requires w > 0.0 && a * w < b * w
    ensures a < b
  {
    assert (a - b) * w < 0.0;
  }

  /** The Redis and the in-memory limiter agree on what a window is. */
  lemma WindowsAgree(now: real, width: nat)
    requires width > 0
    ensures WindowStart(now, width) == (width * Window(now, width)) as real
  {
    var q := Window(now, width);
    WindowBounds(now, width);
    assert (width * q) as real == width as real * q as real;
    assert (width * (q + 1)) as real == width as real * (q as real + 1.0);
    QuotientFloor(now, width as real, q);
  }

  lemma {:induction false} WindowMonotone(a: real, b: real, width: nat)
    requires width > 0 && a <= b
    ensures Window(a, width) <= Window(b, width)
  {
    assert a.Floor <= b.Floor;
    DivMonotone(a.Floor, b.Floor, width);
  }

  lemma DivMonotone(a: int, b: int, width: nat)
    requires width > 0 && a <= b
    ensures a / width <= b / width
  {
    var p, q := a / width, b / width;
    assert width * p <= a && b < width * q + width;
    assert width * p < width * (q + 1);
    if p >= q + 1 { ScaleInt(width, q + 1, p); }
  }

  lemma ScaleInt(width: nat, a: int, b: int)
    requires a <= b
    ensures width * a <= width * b
  {
  }

  /* ---------- one decision ---------- */

  datatype Counter = Counter(count: nat, expires: Option<real>)

  datatype Slot = Slot(count: nat, start: real)

  /** What Redis does with one request: unreachable; INCR applied but the reply lost; EXPIRE failing, applied or not;
      failing only when the connection is closed; or fine. */
  datatype Outcome = Unreachable | ReplyLost | ExpireFails(applied: bool) | CloseFails | Fine

  datatype Limiter = Limiter(counters: map<string, Counter>, memory: map<string, Slot>)

  datatype Decision = Unlimited | FailedOpen | ByRedis(allowed: bool) | ByMemory(allowed: bool)

  datatype Config = Config(limit: int, width: nat)

  /** f"ratelimit:{client_id}:{window}" */
  function RateKey(client: string, window: nat): string { "ratelimit:" + (client + ":" + Dec(window)) }

  /** The last colon of `c + ":" + d` is right after `c`. */
  lemma LastColon(c: string, d: string, c': string, d': string)
    requires ':' !in d && ':' !in d' && c + ":" + d == c' + ":" + d'
    ensures |c| <= |c'|
  {
    var s := c + ":" + d;
    NoColonInside(d');
    assert s[|c|] == ':';
    assert forall i :: |c'| < i < |s| ==> s[i] == d'[i - |c'| - 1];
  }

  lemma RateKeyInjective(c: string, w: nat, c': string, w': nat)
    requires RateKey(c, w) == RateKey(c', w')
    ensures c == c' && w == w'
  {
    var s, s' := c + ":" + Dec(w), c' + ":" + Dec(w');
    PrefixCancels("ratelimit:", s, s');
    DecRoundTrip(w);
    DecRoundTrip(w');
    LastColon(c, Dec(w), c', Dec(w'));
    LastColon(c', Dec(w'), c, Dec(w));
    assert c == s[..|c|] && c' == s'[..|c'|];
    PrefixCancels(c + ":", Dec(w), Dec(w'));
  }

  predicate Live(counters: map<string, Counter>, key: string, now: real) {
    key in counters && (counters[key].expires.None? || now < counters[key].expires.value)
  }

  /** INCR. */
  function Incremented(counters: map<string, Counter>, key: string, now: real): Counter {
    if Live(counters, key, now) then Counter(counters[key].count + 1, counters[key].expires) else Counter(1, None)
  }

  function WindowIndex(now: real, width: nat): nat
    requires width > 0 && now >= 0.0
  {
    Window(now, width)
  }

  /** `_allow_redis`; `None` when it raises. */
  function AllowRedis(c: Config, s: Limiter, client: string, now: real, o: Outcome): (Limiter, Option<bool>)
    requires c.width > 0 && now >= 0.0
  {
    if o == Unreachable then (s, None)
    else
      var key := RateKey(client, WindowIndex(now, c.width));
      var counter := Incremented(s.counters, key, now);
      var expires := counter.count == 1 && o != ReplyLost && o != ExpireFails(false);
      var s' := s.(counters := s.counters[key := if expires then counter.(expires := Some(now + c.width as real))
        else counter]);
      if o == ReplyLost || o == CloseFails || (o.ExpireFails? && counter.count == 1) then (s', None)
      else (s', Some(counter.count <= c.limit))
  }

  function AllowMemory(c: Config, s: Limiter, client: string, now: real): (Limiter, bool)
    requires c.width > 0
  {
    var start := WindowStart(now, c.width);
    var count := if client in s.memory && s.memory[client].start == start then s.memory[client].count + 1 else 1;
    (s.(memory := s.memory[client := Slot(count, start)]), count <= c.limit)
  }

  /** `allow`: Redis first, the in-memory window when Redis raises.  A window of width 0 makes both raise. */
  function Allow(c: Config, s: Limiter, client: string, now: real, o: Outcome): (Limiter, Decision)
    requires now >= 0.0
  {
    if c.limit <= 0 then (s, Unlimited)
    else if c.width == 0 then (s, FailedOpen)
    else
      var (s', answer) := AllowRedis(c, s, client, now, o);
      if answer.Some? then (s', ByRedis(answer.value))
      else
        var (s'', allowed) := AllowMemory(c, s', client, now);
        (s'', ByMemory(allowed))
  }

  class RateLimiter {
    const c: Config
    var counters: map<string, Counter>
    var memory: map<string, Slot>

    constructor (limit: int, width: nat)
      ensures c == Config(limit, width) && State() == Limiter(map[], map[])
    {
      c := Config(limit, width);
      counters, memory := map[], map[];
    }

    function State(): Limiter
      reads this
    {
      Limiter(counters, memory)
    }

    method AllowInMemory(client: string, now: real) returns (allowed: bool)
      requires c.width > 0
      modifies this
      ensures (State(), allowed) == AllowMemory(c, old(State()), client, now)
    {
      var windowStart := now - Remainder(now, c.width);
      var count, start := 0, windowStart;
      if client in memory {
        count, start := memory[client].count, memory[client].start;
      }
      if start != windowStart {
        count, start := 0, windowStart;
      }
      count := count + 1;
      memory := memory[client := Slot(count, start)];
      return count <= c.limit;
    }

    method AllowInRedis(client: string, now: real, o: Outcome) returns (answer: Option<bool>)
      requires c.width > 0 && now >= 0.0
      modifies this
      ensures (State(), answer) == AllowRedis(c, old(State()), client, now, o)
    {
      if o == Unreachable {
        return None;
      }
      var key := RateKey(client, WindowIndex(now, c.width));
      counters := counters[key := Incremented(counters, key, now)];
      if o == ReplyLost {
        return None;
      }
      var count := counters[key].count;
      if count == 1 {
        if o != ExpireFails(false) {
          counters := counters[key := Counter(1, Some(now + c.width as real))];
          assert counters == old(counters)[key := Counter(1, Some(now + c.width as real))];
        }
        if o.ExpireFails? {
          return None;
        }
      }
      if o == CloseFails {
        return None;
      }
      return Some(count <= c.limit);
    }

    method AllowRequest(client: string, now: real, o: Outcome) returns (allowed: bool)
      requires now >= 0.0
      modifies this
      ensures
        var (s, v) := Allow(c, old(State()), client, now, o);
        State() == s && allowed == Admits(v)
    {
      if c.limit <= 0 || c.width == 0 {
        return true;
      }
      var answer := AllowInRedis(client, now, o);
      if answer.Some? {
        return answer.value;
      }
      allowed := AllowInMemory(client, now);
    }
  }

  /* ---------- traces ---------- */

  predicate Admits(v: Decision) { v == Unlimited || v == FailedOpen || v == ByRedis(true) || v == ByMemory(true) }

  datatype Arrival = Arrival(client: string, now: real, outcome: Outcome)

  /** A trace seen by one process with a clock that does not go back. */
  ghost predicate Clocked(reqs: seq<Arrival>) {
    && (forall i :: 0 <= i < |reqs| ==> reqs[i].now >= 0.0)
    && (forall i, j :: 0 <= i < j < |reqs| ==> reqs[i].now <= reqs[j].now)
  }

  function StateAfter(c: Config, reqs: seq<Arrival>, n: nat): Limiter
    requires c.width > 0 && Clocked(reqs) && n <= |reqs|
  {
    if n == 0 then Limiter(map[], map[])
    else Allow(c, StateAfter(c, reqs, n - 1), reqs[n - 1].client, reqs[n - 1].now, reqs[n - 1].outcome).0
  }

  function DecisionOf(c: Config, reqs: seq<Arrival>, i: nat): Decision
    requires c.width > 0 && Clocked(reqs) && i < |reqs|
  {
    Allow(c, StateAfter(c, reqs, i), reqs[i].client, reqs[i].now, reqs[i].outcome).1
  }

  predicate InWindow(c: Config, r: Arrival, client: string, w: nat)
    requires c.width > 0 && r.now >= 0.0
  {
    r.client == client && WindowIndex(r.now, c.width) == w
  }

  /** How many of the first `n` requests of the client in window `w` got decision `v`. */
  function CountDecision(c: Config, reqs: seq<Arrival>, n: nat, client: string, w: nat, v: Decision): nat
    requires c.width > 0 && Clocked(reqs) && n <= |reqs|
  {
    if n == 0 then 0
    else
      var one := if InWindow(c, reqs[n - 1], client, w) && DecisionOf(c, reqs, n - 1) == v then 1 else 0;
      CountDecision(c, reqs, n - 1, client, w, v) + one
  }

  function CountRequests(c: Config, reqs: seq<Arrival>, n: nat, client: string, w: nat): nat
    requires c.width > 0 && Clocked(reqs) && n <= |reqs|
  {
    if n == 0 then 0
    else CountRequests(c, reqs, n - 1, client, w) + if InWindow(c, reqs[n - 1], client, w) then 1 else 0
  }

  /** The Redis counter of a window covers its admissions, is no larger than its requests, and does not expire in it. */
  ghost predicate RedisCovers(c: Config, s: Limiter, client: string, w: nat, admitted: nat, requests: nat)
    requires c.width > 0
  {
    && admitted <= c.limit
    && (RateKey(client, w) !in s.counters ==> admitted == 0)
    && (RateKey(client, w) in s.counters ==>
          && admitted <= s.counters[RateKey(client, w)].count <= requests
          && (s.counters[RateKey(client, w)].expires.Some?
            ==> s.counters[RateKey(client, w)].expires.value >= (c.width * (w + 1)) as real))
  }

  /** The client's memory slot covers the admissions of its window; later windows have none yet. */
  ghost predicate MemoryCovers(c: Config, s: Limiter, client: string, w: nat, admitted: nat, requests: nat)
    requires c.width > 0
  {
    && admitted <= c.limit
    && (client !in s.memory ==> admitted == 0)
    && (client in s.memory ==>
          && (s.memory[client].start == (c.width * w) as real ==> admitted <= s.memory[client].count <= requests)
          && (s.memory[client].start < (c.width * w) as real ==> admitted == 0))
  }

  lemma ExpiryAfterWindow(c: Config, now: real)
    requires c.width > 0 && now >= 0.0
    ensures now < (c.width * (WindowIndex(now, c.width) + 1)) as real <= now + c.width as real
  {
    WindowBounds(now, c.width);
    assert c.width * (WindowIndex(now, c.width) + 1) == c.width * WindowIndex(now, c.width) + c.width;
  }

  lemma RedisStepCovers(c: Config, s: Limiter, client: string, now: real, o: Outcome, x: string, w: nat, admitted: nat,
                        requests: nat)
    requires c.width > 0 && now >= 0.0 && c.limit > 0
    requires RedisCovers(c, s, x, w, admitted, requests)
    ensures
      var (s', answer) := AllowRedis(c, s, client, now, o);
      var here := x == client && w == WindowIndex(now, c.width);
      RedisCovers(c, s', x, w, admitted + (if here && answer == Some(true) then 1 else 0), requests + if here then 1
        else 0)
  {
    var key, k := RateKey(client, WindowIndex(now, c.width)), RateKey(x, w);
    if key == k {
      RateKeyInjective(client, WindowIndex(now, c.width), x, w);
      ExpiryAfterWindow(c, now);
      assert k in s.counters ==> Live(s.counters, k, now);
    }
  }

  lemma MemoryStepCovers(c: Config, s: Limiter, client: string, now: real, x: string, w: nat, admitted: nat,
                         requests: nat)
    requires c.width > 0 && now >= 0.0 && c.limit > 0
    requires MemoryCovers(c, s, x, w, admitted, requests)
    requires client in s.memory ==> s.memory[client].start <= WindowStart(now, c.width)
    ensures
      var (s', allowed) := AllowMemory(c, s, client, now);
      var here := x == client && w == WindowIndex(now, c.width);
      MemoryCovers(c, s', x, w, admitted + (if here && allowed then 1 else 0), requests + if here then 1 else 0)
  {
    WindowsAgree(now, c.width);
    var v := WindowIndex(now, c.width);
    if w < v { ScaleStrict(c.width, w, v); }
    if v < w { ScaleStrict(c.width, v, w); }
  }

  lemma ScaleStrict(width: nat, a: nat, b: nat)
    requires width > 0 && a < b
    ensures (width * a) as real < (width * b) as real
  {
    ScaleInt(width, a + 1, b);
    assert width * (a + 1) == width * a + width;
  }

  /** Memory slots never run ahead of the clock. */
  ghost predicate SlotsPast(c: Config, s: Limiter, now: real)
    requires c.width > 0
  {
    forall x :: x in s.memory ==> s.memory[x].start <= WindowStart(now, c.width)
  }

  lemma StartMonotone(a: real, b: real, width: nat)
    requires width > 0 && 0.0 <= a <= b
    ensures WindowStart(a, width) <= WindowStart(b, width)
  {
    WindowsAgree(a, width);
    WindowsAgree(b, width);
    WindowMonotone(a, b, width);
    ScaleInt(width, Window(a, width), Window(b, width));
  }

  lemma {:induction false} SlotsArePast(c: Config, reqs: seq<Arrival>, n: nat, now: real)
    requires c.width > 0 && Clocked(reqs) && n <= |reqs|
    requires forall i :: 0 <= i < n ==> reqs[i].now <= now
    ensures SlotsPast(c, StateAfter(c, reqs, n), now)
  {
    if n > 0 {
      SlotsArePast(c, reqs, n - 1, now);
      StartMonotone(reqs[n - 1].now, now, c.width);
    }
  }

  lemma {:induction false} RedisTraceCovers(c: Config, reqs: seq<Arrival>, n: nat, client: string, w: nat)
    requires c.width > 0 && c.limit > 0 && Clocked(reqs) && n <= |reqs|
    ensures RedisCovers(c, StateAfter(c, reqs, n), client, w,
      CountDecision(c, reqs, n, client, w, ByRedis(true)), CountRequests(c, reqs, n, client, w))
  {
    if n > 0 {
      var r, s := reqs[n - 1], StateAfter(c, reqs, n - 1);
      RedisTraceCovers(c, reqs, n - 1, client, w);
      RedisStepCovers(c, s, r.client, r.now, r.outcome, client, w,
        CountDecision(c, reqs, n - 1, client, w, ByRedis(true)), CountRequests(c, reqs, n - 1, client, w));
    }
  }

  lemma {:induction false} MemoryTraceCovers(c: Config, reqs: seq<Arrival>, n: nat, client: string, w: nat)
    requires c.width > 0 && c.limit > 0 && Clocked(reqs) && n <= |reqs|
    ensures MemoryCovers(c, StateAfter(c, reqs, n), client, w,
      CountDecision(c, reqs, n, client, w, ByMemory(true)), CountRequests(c, reqs, n, client, w))
  {
    if n > 0 {
      var r, s := reqs[n - 1], StateAfter(c, reqs, n - 1);
      MemoryTraceCovers(c, reqs, n - 1, client, w);
      SlotsArePast(c, reqs, n - 1, r.now);
      MemoryStepCovers(c, AllowRedis(c, s, r.client, r.now, r.outcome).0, r.client, r.now, client, w,
        CountDecision(c, reqs, n - 1, client, w, ByMemory(true)), CountRequests(c, reqs, n - 1, client, w));
    }
  }

  /** The invariant of a whole trace, for every client and window. */
  lemma TraceCovers(c: Config, reqs: seq<Arrival>, n: nat, client: string, w: nat)
    requires c.width > 0 && c.limit > 0 && Clocked(reqs) && n <= |reqs|
    ensures RedisCovers(c, StateAfter(c, reqs, n), client, w,
      CountDecision(c, reqs, n, client, w, ByRedis(true)), CountRequests(c, reqs, n, client, w))
    ensures MemoryCovers(c, StateAfter(c, reqs, n), client, w,
      CountDecision(c, reqs, n, client, w, ByMemory(true)), CountRequests(c, reqs, n, client, w))
  {
    RedisTraceCovers(c, reqs, n, client, w);
    MemoryTraceCovers(c, reqs, n, client, w);
  }

  /** Admissions by either limiter. */
  function CountAdmitted(c: Config, reqs: seq<Arrival>, n: nat, client: string, w: nat): nat
    requires c.width > 0 && Clocked(reqs) && n <= |reqs|
  {
    if n == 0 then 0
    else
      var one := if InWindow(c, reqs[n - 1], client, w) && Admits(DecisionOf(c, reqs, n - 1)) then 1 else 0;
      CountAdmitted(c, reqs, n - 1, client, w) + one
  }

  lemma {:induction false} AdmittedSplits(c: Config, reqs: seq<Arrival>, n: nat, client: string, w: nat)
    requires c.width > 0 && c.limit > 0 && Clocked(reqs) && n <= |reqs|
    ensures CountAdmitted(c, reqs, n, client, w)
      == CountDecision(c, reqs, n, client, w, ByRedis(true)) + CountDecision(c, reqs, n, client, w, ByMemory(true))
  {
    if n > 0 { AdmittedSplits(c, reqs, n - 1, client, w); }
  }

  /** Each limiter admits a client at most `limit` times per window, so together at most twice that, whatever Redis
      does. */
  lemma WindowBound(c: Config, reqs: seq<Arrival>, n: nat, client: string, w: nat)
    requires c.width > 0 && c.limit > 0 && Clocked(reqs) && n <= |reqs|
    ensures CountDecision(c, reqs, n, client, w, ByRedis(true)) <= c.limit
    ensures CountDecision(c, reqs, n, client, w, ByMemory(true)) <= c.limit
    ensures CountAdmitted(c, reqs, n, client, w) <= 2 * c.limit
  {
    TraceCovers(c, reqs, n, client, w);
    AdmittedSplits(c, reqs, n, client, w);
  }

  /** Admissions in a closed interval of time. */
  function CountBetween(c: Config, reqs: seq<Arrival>, n: nat, client: string, low: real, high: real): nat
    requires c.width > 0 && Clocked(reqs) && n <= |reqs|
  {
    if n == 0 then 0
    else
      var r := reqs[n - 1];
      var one := if r.client == client && low <= r.now <= high && Admits(DecisionOf(c, reqs, n - 1)) then 1 else 0;
      CountBetween(c, reqs, n - 1, client, low, high) + one
  }

  lemma {:induction false} IntervalInTwoWindows(c: Config, reqs: seq<Arrival>, n: nat, client: string, low: real,
                                                high: real)
    requires c.width > 0 && Clocked(reqs) && n <= |reqs| && 0.0 <= low <= high <= low + c.width as real
    ensures CountBetween(c, reqs, n, client, low, high)
      <= CountAdmitted(c, reqs, n, client, WindowIndex(low, c.width))
         + CountAdmitted(c, reqs, n, client, WindowIndex(low, c.width) + 1)
  {
    if n > 0 {
      IntervalInTwoWindows(c, reqs, n - 1, client, low, high);
      var now := reqs[n - 1].now;
      if low <= now <= high {
        WindowMonotone(low, now, c.width);
        WindowMonotone(now, low + c.width as real, c.width);
        assert (low + c.width as real).Floor == low.Floor + c.width;
        NextWindow(low.Floor, c.width);
      }
    }
  }

  lemma NextWindow(f: nat, width: nat)
    requires width > 0
    ensures (f + width) / width == f / width + 1
  {
    var q := f / width;
    assert f == width * q + f % width;
    assert f + width == width * (q + 1) + f % width;
    DivUnique(f + width, width, q + 1, f % width);
  }

  lemma DivUnique(x: int, width: nat, q: int, r: int)
    requires width > 0 && x == width * q + r && 0 <= r < width
    ensures x / width == q
  {
    var p := x / width;
    assert x == width * p + x % width;
    assert width * (p + 1) == width * p + width && width * (q + 1) == width * q + width;
    if p < q { ScaleInt(width, p + 1, q); }
    if q < p { ScaleInt(width, q + 1, p); }
  }

  /** In any interval no longer than a window a client gets at most four times the limit through. */
  lemma IntervalBound(c: Config, reqs: seq<Arrival>, n: nat, client: string, low: real, high: real)
    requires c.width > 0 && c.limit > 0 && Clocked(reqs) && n <= |reqs| && 0.0 <= low <= high <= low + c.width as real
    ensures CountBetween(c, reqs, n, client, low, high) <= 2 * (2 * c.limit)
  {
    IntervalInTwoWindows(c, reqs, n, client, low, high);
    WindowBound(c, reqs, n, client, WindowIndex(low, c.width));
    WindowBound(c, reqs, n, client, WindowIndex(low, c.width) + 1);
  }

  /** A client that stays within the limit is never refused, whatever Redis does. */
  lemma WithinLimitNeverRefused(c: Config, reqs: seq<Arrival>, i: nat)
    requires c.width > 0 && Clocked(reqs) && i < |reqs|
    requires CountRequests(c, reqs, i + 1, reqs[i].client, WindowIndex(reqs[i].now, c.width)) <= c.limit
    ensures Admits(DecisionOf(c, reqs, i))
  {
    var r, w := reqs[i], WindowIndex(reqs[i].now, c.width);
    if c.limit > 0 {
      TraceCovers(c, reqs, i, r.client, w);
      WindowsAgree(r.now, c.width);
    }
  }

  /** A limit that is not positive never refuses and never counts. */
  lemma {:induction false} NoLimitNeverRefuses(c: Config, reqs: seq<Arrival>, n: nat, client: string, w: nat)
    requires c.width > 0 && c.limit <= 0 && Clocked(reqs) && n <= |reqs|
    ensures CountAdmitted(c, reqs, n, client, w) == CountRequests(c, reqs, n, client, w)
    ensures StateAfter(c, reqs, n) == Limiter(map[], map[])
  {
    if n > 0 { NoLimitNeverRefuses(c, reqs, n - 1, client, w); }
  }

  /* ---------- the Redis counters ---------- */

  predicate Reaches(c: Config, r: Arrival, client: string, w: nat)
    requires c.width > 0 && r.now >= 0.0
  {
    InWindow(c, r, client, w) && r.outcome != Unreachable
  }

  /** How many of the first `n` requests of the client in window `w` were counted by Redis. */
  function CountReached(c: Config, reqs: seq<Arrival>, n: nat, client: string, w: nat): nat
    requires c.width > 0 && Clocked(reqs) && n <= |reqs|
  {
    if n == 0 then 0
    else CountReached(c, reqs, n - 1, client, w) + if Reaches(c, reqs[n - 1], client, w) then 1 else 0
  }

  /** The first of them. */
  function FirstReached(c: Config, reqs: seq<Arrival>, n: nat, client: string, w: nat): Option<Arrival>
    requires c.width > 0 && Clocked(reqs) && n <= |reqs|
  {
    if n == 0 then None
    else
      var first := FirstReached(c, reqs, n - 1, client, w);
      if first.None? && Reaches(c, reqs[n - 1], client, w) then Some(reqs[n - 1]) else first
  }

  /** INCR takes effect and the EXPIRE after it does not. */
  predicate LosesExpiry(o: Outcome) { o == ReplyLost || o == ExpireFails(false) }

  /** The counter of a window: one for every request that reached Redis, expiring as its first one said. */
  ghost predicate CounterIs(c: Config, counters: map<string, Counter>, client: string, w: nat, first: Option<Arrival>,
                            reached: nat)
    requires c.width > 0
  {
    match first
    case None => RateKey(client, w) !in counters && reached == 0
    case Some(r) =>
      && r.now >= 0.0 && WindowIndex(r.now, c.width) == w && reached > 0 && RateKey(client, w) in counters
      && counters[RateKey(client, w)] ==
           Counter(reached, if LosesExpiry(r.outcome) then None else Some(r.now + c.width as real))
  }

  lemma CounterLives(c: Config, counters: map<string, Counter>, client: string, w: nat, first: Option<Arrival>,
                     reached: nat, now: real)
    requires c.width > 0 && now >= 0.0 && w == WindowIndex(now, c.width)
    requires CounterIs(c, counters, client, w, first, reached)
    ensures Incremented(counters, RateKey(client, w), now) ==
      match first
      case None => Counter(1, None)
      case Some(r) => Counter(reached + 1, counters[RateKey(client, w)].expires)
  {
    if first.Some? {
      ExpiryAfterWindow(c, first.value.now);
      ExpiryAfterWindow(c, now);
    }
  }

  lemma CounterStep(c: Config, s: Limiter, r: Arrival, client: string, w: nat, first: Option<Arrival>, reached: nat)
    requires c.width > 0 && r.now >= 0.0 && CounterIs(c, s.counters, client, w, first, reached)
    ensures
      var here := Reaches(c, r, client, w);
      CounterIs(c, AllowRedis(c, s, r.client, r.now, r.outcome).0.counters, client, w,
                if first.None? && here then Some(r) else first, reached + if here then 1 else 0)
  {
    var v := WindowIndex(r.now, c.width);
    if RateKey(r.client, v) == RateKey(client, w) {
      RateKeyInjective(r.client, v, client, w);
      CounterLives(c, s.counters, client, w, first, reached, r.now);
    }
  }

  /** In every trace Redis counts each request that reaches it, and a counter has the expiry its first one set. */
  lemma {:induction false} CountersAreExact(c: Config, reqs: seq<Arrival>, n: nat, client: string, w: nat)
    requires c.width > 0 && c.limit > 0 && Clocked(reqs) && n <= |reqs|
    ensures CounterIs(c, StateAfter(c, reqs, n).counters, client, w, FirstReached(c, reqs, n, client, w),
                      CountReached(c, reqs, n, client, w))
  {
    if n > 0 {
      CountersAreExact(c, reqs, n - 1, client, w);
      CounterStep(c, StateAfter(c, reqs, n - 1), reqs[n - 1], client, w, FirstReached(c, reqs, n - 1, client, w),
                  CountReached(c, reqs, n - 1, client, w));
    }
  }

  lemma ExpiryWithinNextWindow(c: Config, now: real, later: real)
    requires c.width > 0 && now >= 0.0 && later >= (c.width * (WindowIndex(now, c.width) + 2)) as real
    ensures now + c.width as real <= later
  {
    var w := WindowIndex(now, c.width);
    WindowBounds(now, c.width);
    assert c.width * (w + 2) == c.width * (w + 1) + c.width;
  }

  /** A counter outlives the window after its own exactly when its first request lost the EXPIRE: then it is never
      dropped. */
  lemma CounterLeaksIff(c: Config, reqs: seq<Arrival>, n: nat, client: string, w: nat, later: real)
    requires c.width > 0 && c.limit > 0 && Clocked(reqs) && n <= |reqs| && later >= (c.width * (w + 2)) as real
    ensures Live(StateAfter(c, reqs, n).counters, RateKey(client, w), later)
      <==> FirstReached(c, reqs, n, client, w).Some?
           && LosesExpiry(FirstReached(c, reqs, n, client, w).value.outcome)
  {
    CountersAreExact(c, reqs, n, client, w);
    var first := FirstReached(c, reqs, n, client, w);
    if first.Some? { ExpiryWithinNextWindow(c, first.value.now, later); }
  }

  /** Redis raises on a request it cannot be reached for, on a lost reply, on a failing close, and on a failing EXPIRE,
      which only the first request of a window sends. */
  predicate Failing(o: Outcome, first: bool) {
    o == Unreachable || o == ReplyLost || o == CloseFails || (o.ExpireFails? && first)
  }

  /** Who decides, and how: Redis by the number of requests that reached it, the in-memory window when Redis raises. */
  lemma RedisDecides(c: Config, reqs: seq<Arrival>, i: nat)
    requires c.width > 0 && c.limit > 0 && Clocked(reqs) && i < |reqs|
    ensures
      var reached := CountReached(c, reqs, i, reqs[i].client, WindowIndex(reqs[i].now, c.width));
      if Failing(reqs[i].outcome, reached == 0) then DecisionOf(c, reqs, i).ByMemory?
      else DecisionOf(c, reqs, i) == ByRedis(reached < c.limit)
  {
    var r, w := reqs[i], WindowIndex(reqs[i].now, c.width);
    CountersAreExact(c, reqs, i, r.client, w);
    CounterLives(c, StateAfter(c, reqs, i).counters, r.client, w, FirstReached(c, reqs, i, r.client, w),
                 CountReached(c, reqs, i, r.client, w), r.now);
  }

  lemma {:induction false} HealthyReaches(c: Config, reqs: seq<Arrival>, n: nat, client: string, w: nat)
    requires c.width > 0 && Clocked(reqs) && n <= |reqs|
    requires forall i :: 0 <= i < n ==> reqs[i].outcome == Fine
    ensures CountReached(c, reqs, n, client, w) == CountRequests(c, reqs, n, client, w)
  {
    if n > 0 { HealthyReaches(c, reqs, n - 1, client, w); }
  }

  /** With Redis up throughout exactly the first `limit` requests of each window pass. */
  lemma HealthyIsExact(c: Config, reqs: seq<Arrival>, i: nat)
    requires c.width > 0 && c.limit > 0 && Clocked(reqs) && i < |reqs|
    requires forall j :: 0 <= j <= i ==> reqs[j].outcome == Fine
    ensures Admits(DecisionOf(c, reqs, i))
      <==> CountRequests(c, reqs, i + 1, reqs[i].client, WindowIndex(reqs[i].now, c.width)) <= c.limit
  {
    HealthyReaches(c, reqs, i, reqs[i].client, WindowIndex(reqs[i].now, c.width));
    RedisDecides(c, reqs, i);
  }

  /* ---------- when Redis raises ---------- */

  predicate RedisRaises(c: Config, reqs: seq<Arrival>, i: nat)
    requires c.width > 0 && Clocked(reqs) && i < |reqs|
  {
    AllowRedis(c, StateAfter(c, reqs, i), reqs[i].client, reqs[i].now, reqs[i].outcome).1.None?
  }

  /** How many of the first `n` requests of the client in window `w` fell back to the in-memory window. */
  function CountFallbacks(c: Config, reqs: seq<Arrival>, n: nat, client: string, w: nat): nat
    requires c.width > 0 && Clocked(reqs) && n <= |reqs|
  {
    if n == 0 then 0
    else
      var one := if InWindow(c, reqs[n - 1], client, w) && RedisRaises(c, reqs, n - 1) then 1 else 0;
      CountFallbacks(c, reqs, n - 1, client, w) + one
  }

  /** The client's slot holds exactly the fallbacks of its window; later windows have none yet. */
  ghost predicate MemoryCounts(c: Config, s: Limiter, client: string, w: nat, fallbacks: nat)
    requires c.width > 0
  {
    && (client !in s.memory ==> fallbacks == 0)
    && (client in s.memory ==>
          && (s.memory[client].start == (c.width * w) as real ==> s.memory[client].count == fallbacks)
          && (s.memory[client].start < (c.width * w) as real ==> fallbacks == 0))
  }

  lemma MemoryStepCounts(c: Config, s: Limiter, client: string, now: real, x: string, w: nat, fallbacks: nat)
    requires c.width > 0 && now >= 0.0
    requires MemoryCounts(c, s, x, w, fallbacks)
    requires client in s.memory ==> s.memory[client].start <= WindowStart(now, c.width)
    ensures
      var here := x == client && w == WindowIndex(now, c.width);
      MemoryCounts(c, AllowMemory(c, s, client, now).0, x, w, fallbacks + if here then 1 else 0)
  {
    WindowsAgree(now, c.width);
    var v := WindowIndex(now, c.width);
    if w < v { ScaleStrict(c.width, w, v); }
    if v < w { ScaleStrict(c.width, v, w); }
  }

  lemma {:induction false} MemoryTraceCounts(c: Config, reqs: seq<Arrival>, n: nat, client: string, w: nat)
    requires c.width > 0 && c.limit > 0 && Clocked(reqs) && n <= |reqs|
    ensures MemoryCounts(c, StateAfter(c, reqs, n), client, w, CountFallbacks(c, reqs, n, client, w))
  {
    if n > 0 {
      var r, s := reqs[n - 1], StateAfter(c, reqs, n - 1);
      MemoryTraceCounts(c, reqs, n - 1, client, w);
      SlotsArePast(c, reqs, n - 1, r.now);
      if RedisRaises(c, reqs, n - 1) {
        var s' := AllowRedis(c, s, r.client, r.now, r.outcome).0;
        MemoryStepCounts(c, s', r.client, r.now, client, w, CountFallbacks(c, reqs, n - 1, client, w));
      }
    }
  }

  /** A request on which Redis raises is admitted exactly when fewer than `limit` earlier requests of its client in its
      window fell back as well: failing open ends there. */
  lemma FallbackAdmitsIff(c: Config, reqs: seq<Arrival>, i: nat)
    requires c.width > 0 && c.limit > 0 && Clocked(reqs) && i < |reqs| && RedisRaises(c, reqs, i)
    ensures Admits(DecisionOf(c, reqs, i))
      <==> CountFallbacks(c, reqs, i, reqs[i].client, WindowIndex(reqs[i].now, c.width)) < c.limit
  {
    var r, w := reqs[i], WindowIndex(reqs[i].now, c.width);
    MemoryTraceCounts(c, reqs, i, r.client, w);
    SlotsArePast(c, reqs, i, r.now);
    WindowsAgree(r.now, c.width);
  }

  lemma {:induction false} FallbacksGrow(c: Config, reqs: seq<Arrival>, i: nat, n: nat, client: string, w: nat)
    requires c.width > 0 && Clocked(reqs) && i <= n <= |reqs|
    ensures CountFallbacks(c, reqs, i, client, w) <= CountFallbacks(c, reqs, n, client, w)
  {
    if i < n { FallbacksGrow(c, reqs, i, n - 1, client, w); }
  }

  /** The fallback that goes past the limit. */
  lemma {:induction false} ExcessFallback(c: Config, reqs: seq<Arrival>, n: nat, client: string,
                                          w: nat) returns (i: nat)
    requires c.width > 0 && c.limit > 0 && Clocked(reqs) && n <= |reqs|
      && CountFallbacks(c, reqs, n, client, w) > c.limit
    ensures i < n && RedisRaises(c, reqs, i) && InWindow(c, reqs[i], client, w)
      && CountFallbacks(c, reqs, i, client, w) >= c.limit
  {
    if CountFallbacks(c, reqs, n - 1, client, w) > c.limit {
      i := ExcessFallback(c, reqs, n - 1, client, w);
    } else {
      i := n - 1;
    }
  }

  ghost predicate FailsOpen(c: Config, reqs: seq<Arrival>)
    requires c.width > 0 && Clocked(reqs)
  {
    forall i :: 0 <= i < |reqs| && RedisRaises(c, reqs, i) ==> Admits(DecisionOf(c, reqs, i))
  }

  ghost predicate FewFallbacks(c: Config, reqs: seq<Arrival>)
    requires c.width > 0 && Clocked(reqs)
  {
    forall client, w: nat :: CountFallbacks(c, reqs, |reqs|, client, w) <= c.limit
  }

  lemma RefusedOnFallback(c: Config, reqs: seq<Arrival>, client: string, w: nat) returns (i: nat)
    requires c.width > 0 && c.limit > 0 && Clocked(reqs) && CountFallbacks(c, reqs, |reqs|, client, w) > c.limit
    ensures i < |reqs| && RedisRaises(c, reqs, i) && !Admits(DecisionOf(c, reqs, i))
  {
    i := ExcessFallback(c, reqs, |reqs|, client, w);
    FallbackAdmitsIff(c, reqs, i);
  }

  lemma FallbackAdds(c: Config, reqs: seq<Arrival>, i: nat, client: string, w: nat)
    requires c.width > 0 && Clocked(reqs) && i < |reqs| && RedisRaises(c, reqs, i) && InWindow(c, reqs[i], client, w)
    ensures CountFallbacks(c, reqs, i + 1, client, w) == CountFallbacks(c, reqs, i, client, w) + 1
  {
  }

  lemma FallbackCounts(c: Config, reqs: seq<Arrival>, i: nat, client: string, w: nat)
    requires c.width > 0 && Clocked(reqs) && i < |reqs| && RedisRaises(c, reqs, i) && InWindow(c, reqs[i], client, w)
    ensures CountFallbacks(c, reqs, i, client, w) < CountFallbacks(c, reqs, |reqs|, client, w)
  {
    FallbackAdds(c, reqs, i, client, w);
    FallbacksGrow(c, reqs, i + 1, |reqs|, client, w);
  }

  lemma AdmittedOnFallback(c: Config, reqs: seq<Arrival>, i: nat)
    requires c.width > 0 && c.limit > 0 && Clocked(reqs) && i < |reqs| && RedisRaises(c, reqs, i)
    requires FewFallbacks(c, reqs)
    ensures Admits(DecisionOf(c, reqs, i))
  {
    FallbackCounts(c, reqs, i, reqs[i].client, WindowIndex(reqs[i].now, c.width));
    FallbackAdmitsIff(c, reqs, i);
  }

  /** No error of Redis costs anyone a request exactly when no client falls back more than `limit` times in a window. */
  lemma FailsOpenIff(c: Config, reqs: seq<Arrival>)
    requires c.width > 0 && c.limit > 0 && Clocked(reqs)
    ensures FailsOpen(c, reqs) <==> FewFallbacks(c, reqs)
  {
    if client, w: nat :| CountFallbacks(c, reqs, |reqs|, client, w) > c.limit {
      var i := RefusedOnFallback(c, reqs, client, w);
    } else {
      forall i | 0 <= i < |reqs| && RedisRaises(c, reqs, i) ensures Admits(DecisionOf(c, reqs, i)) {
        AdmittedOnFallback(c, reqs, i);
      }
    }
  }

  function Outage(client: string, now: real, n: nat): (reqs: seq<Arrival>)
    ensures |reqs| == n && forall i :: 0 <= i < n ==> reqs[i] == Arrival(client, now, Unreachable)
  {
    seq(n, i requires 0 <= i < n => Arrival(client, now, Unreachable))
  }

  lemma {:induction false} OutageFallsBack(c: Config, client: string, now: real, total: nat, n: nat)
    requires c.width > 0 && now >= 0.0 && n <= total
    ensures Clocked(Outage(client, now, total))
    ensures CountFallbacks(c, Outage(client, now, total), n, client, WindowIndex(now, c.width)) == n
  {
    if n > 0 { OutageFallsBack(c, client, now, total, n - 1); }
  }

  /** With Redis unreachable, the request after `limit` others of one client at one instant is refused. */
  lemma OutageRefuses(c: Config, client: string, now: real)
    requires c.width > 0 && c.limit > 0 && now >= 0.0
    ensures Clocked(Outage(client, now, c.limit + 1))
    ensures DecisionOf(c, Outage(client, now, c.limit + 1), c.limit) == ByMemory(false)
  {
    OutageFallsBack(c, client, now, c.limit + 1, c.limit);
    FallbackAdmitsIff(c, Outage(client, now, c.limit + 1), c.limit);
  }
}
