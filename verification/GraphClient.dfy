/** The graph driver wrapper: app/graph/neo4j_client.py.  Every call is tried at most twice, and an attempt that is
    reported as failed may nevertheless have taken effect. */
module GraphClient {
  import opened Stores

  datatype Attempt = Succeeds | FailsBefore | FailsAfter

  predicate TakesEffect(a: Attempt) { a != FailsBefore }

  datatype Attempts = Attempts(first: Attempt, second: Attempt)

  /** Whether the caller sees success. */
  predicate Ok(a: Attempts) { a.first == Succeeds || a.second == Succeeds }

  /** How many times the write takes effect. */
  function Copies(a: Attempts): (n: nat)
    ensures n <= 2
    ensures Ok(a) ==> n >= 1
    ensures n == 2 ==> a.first == FailsAfter
  {
    if a.first == Succeeds then 1
    else (if TakesEffect(a.first) then 1 else 0) + (if TakesEffect(a.second) then 1 else 0)
  }

  /** The same caller-visible outcome without the double application. */
  function Once(a: Attempts): (r: Attempts)
    ensures Ok(r) == Ok(a)
    ensures Copies(r) == if Copies(a) == 0 then 0 else 1
  {
    if Copies(a) == 2 then
      if a.second == Succeeds then Attempts(FailsBefore, Succeeds) else Attempts(FailsAfter, FailsBefore)
    else a
  }

  class Neo4jClient {
    var edges: seq<Edge>

    constructor ()
      ensures edges == []
    {
      edges := [];
    }

    /** `run_write` through `_with_retry`; `a` says what happens to each attempt. */
    method RunWrite(g: GraphWrite, a: Attempts) returns (ok: bool)
      modifies this
      ensures ok == Ok(a)
      ensures edges == ApplyTimes(old(edges), g, Copies(a))
    {
      ok := false;
      var attempt := 0;
      ghost var done: nat := 0;
      while attempt < 2 && !ok
        invariant 0 <= attempt <= 2
        invariant edges == ApplyTimes(old(edges), g, done)
        invariant attempt == 0 ==> !ok && done == 0
        invariant attempt == 1 ==> ok == (a.first == Succeeds) && done == if TakesEffect(a.first) then 1 else 0
        invariant attempt == 2 ==> ok == Ok(a) && a.first != Succeeds && done == Copies(a)
      {
        var outcome := if attempt == 0 then a.first else a.second;
        if TakesEffect(outcome) {
          edges := ApplyWrite(edges, g);
          done := done + 1;
        }
        ok := outcome == Succeeds;
        attempt := attempt + 1;
      }
    }
  }
}
