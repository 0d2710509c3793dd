/** The key scheme of the search cache: app/routers/memories.py. */
module CacheKeys {

  /** Decimal digits, as Python formats a non-negative integer. */
  function Dec(k: nat): (s: string)
    ensures |s| > 0
  {
    if k < 10 then ["0123456789"[k]] else Dec(k / 10) + ["0123456789"[k % 10]]
  }

  function DigitValue(c: char): nat {
    if '0' <= c <= '9' then (c - '0') as nat else 0
  }

  function ParseDec(s: string): nat {
    if s == [] then 0 else ParseDec(s[..|s| - 1]) * 10 + DigitValue(s[|s| - 1])
  }

  lemma {:induction false} DecRoundTrip(k: nat)
    ensures ParseDec(Dec(k)) == k
    ensures ':' !in Dec(k)
  {
    if k >= 10 {
      DecRoundTrip(k / 10);
      assert Dec(k)[..|Dec(k)| - 1] == Dec(k / 10);
    } else {
      assert ParseDec([]) == 0;
      assert Dec(k)[..0] == [];
    }
  }

  const PREFIX := "memory-search:"

  /** f"memory-search:{user_id}:{top_k}:{q}" */
  function Key(user: string, topK: nat, q: string): string {
    PREFIX + (user + ":" + Dec(topK) + ":" + q)
  }

  /** f"memory-search:{user_id}:*" */
  function Pattern(user: string): string { PREFIX + user + ":" + "*" }

  /** The FastAPI bounds on `top_k`. */
  predicate TopKOk(k: int) { 1 <= k <= 25 }

  /* ---------- when two users share a key ---------- */

  /** `v` extends `u` by a colon-separated `top_k` and possibly more. */
  ghost predicate Nested(u: string, v: string) {
    exists k: nat :: TopKOk(k) && u + ":" + Dec(k) + ":" <= v + ":"
  }

  ghost predicate ShareKey(u: string, v: string) {
    exists k: nat, q, k': nat, q' :: TopKOk(k) && TopKOk(k') && Key(u, k, q) == Key(v, k', q')
  }

  lemma PrefixCancels(p: string, a: string, b: string)
    requires p + a == p + b
    ensures a == b
  {
    assert a == (p + a)[|p|..];
    assert b == (p + b)[|p|..];
  }

  lemma NoColonInside(d: string)
    requires ':' !in d
    ensures forall i :: 0 <= i < |d| ==> d[i] != ':'
  {
  }

  /** The first colon of `d + ":" + x` is right after `d`. */
  lemma FirstColon(d: string, x: string, r: string, y: string)
    requires ':' !in d && d + ":" + x == r + ":" + y
    ensures d + ":" <= r + ":"
  {
    var s := d + ":" + x;
    assert s[|r|] == ':';
    NoColonInside(d);
    assert forall i :: 0 <= i < |d| ==> s[i] == d[i];
    assert forall i :: 0 <= i <= |d| ==> (d + ":")[i] == s[i] == (r + ":")[i];
  }

  lemma ShorterUserIsNested(u: string, k: nat, q: string, v: string, k': nat, q': string)
    requires TopKOk(k) && |u| < |v|
    requires Key(u, k, q) == Key(v, k', q')
    ensures Nested(u, v)
  {
    var a, b := u + ":" + Dec(k) + ":" + q, v + ":" + Dec(k') + ":" + q';
    PrefixCancels(PREFIX, a, b);
    assert forall i :: 0 <= i < |u| ==> a[i] == u[i] && b[i] == v[i];
    assert a[|u|] == ':' && b[|u|] == v[|u|];
    var r := v[|u| + 1..];
    assert v == u + ":" + r;
    assert a == (u + ":") + (Dec(k) + ":" + q);
    assert b == (u + ":") + (r + ":" + (Dec(k') + ":" + q'));
    PrefixCancels(u + ":", Dec(k) + ":" + q, r + ":" + (Dec(k') + ":" + q'));
    DecRoundTrip(k);
    FirstColon(Dec(k), q, r, Dec(k') + ":" + q');
    assert u + ":" + Dec(k) + ":" == (u + ":") + (Dec(k) + ":");
    assert v + ":" == (u + ":") + (r + ":");
  }

  lemma NestedSharesKey(u: string, v: string)
    requires Nested(u, v)
    ensures ShareKey(u, v)
  {
    var k: nat :| TopKOk(k) && u + ":" + Dec(k) + ":" <= v + ":";
    var head := u + ":" + Dec(k) + ":";
    var rest := (v + ":")[|head|..];
    assert v + ":" == head + rest;
    assert u + ":" + Dec(k) + ":" + (rest + Dec(1) + ":") == v + ":" + Dec(1) + ":" + "";
    assert Key(u, k, rest + Dec(1) + ":") == Key(v, 1, "");
  }

  /** Two users can be served one another's cached results exactly when one id nests in the other. */
  lemma ShareKeyIffNested(u: string, v: string)
    ensures ShareKey(u, v) <==> u == v || Nested(u, v) || Nested(v, u)
  {
    if ShareKey(u, v) {
      var k: nat, q, k': nat, q' :| TopKOk(k) && TopKOk(k') && Key(u, k, q) == Key(v, k', q');
      if |u| < |v| {
        ShorterUserIsNested(u, k, q, v, k', q');
      } else if |v| < |u| {
        ShorterUserIsNested(v, k', q', u, k, q);
      } else {
        PrefixCancels(PREFIX, u + ":" + Dec(k) + ":" + q, v + ":" + Dec(k') + ":" + q');
        var a := u + ":" + Dec(k) + ":" + q;
        assert u == a[..|u|] == v;
      }
    }
    if u == v { assert Key(u, 1, "") == Key(v, 1, ""); }
    if Nested(u, v) { NestedSharesKey(u, v); }
    if Nested(v, u) {
      NestedSharesKey(v, u);
      var k: nat, q, k': nat, q' :| TopKOk(k) && TopKOk(k') && Key(v, k, q) == Key(u, k', q');
      assert Key(u, k', q') == Key(v, k, q);
    }
  }

  /** One such pair: a query of user "a" and one of user "a:5" have the same cache key. */
  lemma SharedKeyExample()
    ensures Key("a", 5, "5:x") == "memory-search:a:5:5:x" == Key("a:5", 5, "x")
    ensures ShareKey("a", "a:5")
  {
  }

  lemma OneUserKeysInjective(u: string, k: nat, q: string, k': nat, q': string)
    requires Key(u, k, q) == Key(u, k', q')
    ensures k == k' && q == q'
  {
    PrefixCancels(PREFIX, u + ":" + Dec(k) + ":" + q, u + ":" + Dec(k') + ":" + q');
    assert u + ":" + Dec(k) + ":" + q == (u + ":") + (Dec(k) + ":" + q);
    assert u + ":" + Dec(k') + ":" + q' == (u + ":") + (Dec(k') + ":" + q');
    PrefixCancels(u + ":", Dec(k) + ":" + q, Dec(k') + ":" + q');
    DecRoundTrip(k);
    DecRoundTrip(k');
    FirstColon(Dec(k), q, Dec(k'), q');
    FirstColon(Dec(k'), q', Dec(k), q);
    assert Dec(k) == Dec(k') by {
      assert |Dec(k) + ":"| == |Dec(k') + ":"|;
      assert Dec(k) == (Dec(k) + ":")[..|Dec(k)|];
      assert Dec(k') == (Dec(k') + ":")[..|Dec(k')|];
    }
    PrefixCancels(Dec(k) + ":", q, q');
  }

  /* ---------- the invalidation pattern ---------- */

  /** Free of the two glob characters whose matching is not modelled. */
  predicate Plain(p: string) { '[' !in p && '\\' !in p }

  /** Redis glob matching of `*`, `?` and literal characters. */
  predicate GlobMatch(p: string, s: string)
    requires Plain(p)
    decreases |p| + |s|
  {
    if p == [] then s == []
    else if p[0] == '*' then GlobMatch(p[1..], s) || (s != [] && GlobMatch(p, s[1..]))
    else s != [] && (p[0] == '?' || p[0] == s[0]) && GlobMatch(p[1..], s[1..])
  }

  lemma {:induction false} StarMatchesAll(s: string)
    ensures GlobMatch("*", s)
  {
    if s != [] { StarMatchesAll(s[1..]); }
  }

  /** A pattern followed by `*` matches its own text followed by anything, wildcards in it included. */
  lemma {:induction false} OwnTextMatches(p: string, tail: string)
    requires Plain(p)
    ensures GlobMatch(p + "*", p + tail)
  {
    if p == [] {
      assert p + "*" == "*" && p + tail == tail;
      StarMatchesAll(tail);
    } else {
      OwnTextMatches(p[1..], tail);
      assert (p + "*")[1..] == p[1..] + "*";
      assert (p + tail)[1..] == p[1..] + tail;
      assert GlobMatch(p + "*", (p + tail)[1..]) || p[0] != '*' by {
        if p[0] == '*' { assert (p + "*")[0] == '*'; }
      }
    }
  }

  lemma PatternCoversUser(user: string, k: nat, q: string)
    requires Plain(user)
    ensures GlobMatch(Pattern(user), Key(user, k, q))
  {
    assert Pattern(user) == (PREFIX + user + ":") + "*";
    assert Key(user, k, q) == (PREFIX + user + ":") + (Dec(k) + ":" + q);
    OwnTextMatches(PREFIX + user + ":", Dec(k) + ":" + q);
  }

  /** Free of the key separator and of every glob character. */
  predicate KeySafe(u: string) {
    Plain(u) && ':' !in u && '*' !in u && '?' !in u
  }

  lemma {:induction false} LiteralPattern(p: string, s: string)
    requires Plain(p) && '*' !in p && '?' !in p
    ensures GlobMatch(p + "*", s) <==> p <= s
  {
    if p == [] {
      assert p + "*" == "*";
      StarMatchesAll(s);
    } else {
      assert (p + "*")[1..] == p[1..] + "*";
      assert p[0] in p;
      if s != [] { LiteralPattern(p[1..], s[1..]); }
      assert p <= s <==> s != [] && p[0] == s[0] && p[1..] <= s[1..];
    }
  }

  /** For key-safe users the pattern selects exactly their own keys. */
  lemma PatternSelectsOneUser(u: string, v: string, k: nat, q: string)
    requires KeySafe(u) && KeySafe(v)
    ensures GlobMatch(Pattern(u), Key(v, k, q)) <==> u == v
  {
    var p := PREFIX + u + ":";
    assert Pattern(u) == p + "*";
    LiteralPattern(p, Key(v, k, q));
    assert Key(v, k, q) == PREFIX + v + ":" + (Dec(k) + ":" + q);
    if p <= Key(v, k, q) {
      var s := Key(v, k, q);
      assert p[|PREFIX| + |u|] == ':' && s[|PREFIX| + |v|] == ':';
      assert forall i :: 0 <= i < |u| ==> p[|PREFIX| + i] == u[i];
      assert forall i :: 0 <= i < |v| ==> s[|PREFIX| + i] == v[i];
      assert forall i :: 0 <= i <= |PREFIX| + |u| ==> s[i] == p[i];
      NoColonInside(u);
      NoColonInside(v);
      assert u == v;
    }
  }

  lemma KeySafeNeverNested(u: string, v: string)
    requires KeySafe(u) && KeySafe(v)
    ensures !Nested(u, v)
  {
    forall k: nat | TopKOk(k) ensures !(u + ":" + Dec(k) + ":" <= v + ":") {
      var p := u + ":" + Dec(k) + ":";
      assert p[|u|] == ':' && |p| > |u| + 1;
      NoColonInside(v);
      assert forall i :: 0 <= i < |v| ==> (v + ":")[i] == v[i];
    }
  }
}
