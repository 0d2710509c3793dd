/** The benchmark runner and classifier: app/eval/runner.py, app/eval/classifier.py. */
module Runner {
  import opened Domain
  import opened Retrieval
  import opened Stores
  import opened GraphClient
  import opened MockBackend
  import opened Percentile
  import opened Scoring

  datatype Seed = Seed(name: string, text: string, sarcasm: bool, falseFact: bool)

  datatype Case = Case(caseId: string, user: string, seeds: seq<Seed>, query: string, expectedLabel: Option<string>)

  datatype CaseResult = CaseResult(expected: Option<Uuid>, retrieved: seq<Ranked>, mode: FailureMode, score: real)

  const EVAL_TOP_K := 5

  /** `classify_case`: the most severe observed fault. */
  function ClassifyCase(expected: Option<Uuid>, retrieved: seq<Uuid>, inactive: set<Uuid>,
                        flagged: set<Uuid>): FailureMode {
    if exists id :: id in retrieved && id in flagged then FalseFact
    else if exists id :: id in retrieved && id in inactive then StaleFact
    else if expected.Some? && expected.value !in retrieved then RetrievalMiss
    else NoFailure
  }

  function InactiveIds(w: World, user: string): set<Uuid> {
    set id | id in w.rows && w.rows[id].user == user && !w.rows[id].active
  }

  /* ---------- clearing a namespace ---------- */

  function KeepOthers(order: seq<Uuid>, gone: set<Uuid>): seq<Uuid> {
    if order == [] then []
    else
      var n := |order| - 1;
      KeepOthers(order[..n], gone) + if order[n] in gone then [] else [order[n]]
  }

  function KeepEvents(events: seq<Event>, gone: set<Uuid>): seq<Event> {
    if events == [] then []
    else
      var n := |events| - 1;
      KeepEvents(events[..n], gone) + if events[n].memoryId.Some? && events[n].memoryId.value in gone then []
        else [events[n]]
  }

  function RowIds(w: World, user: string): set<Uuid> { set id | id in w.rows && w.rows[id].user == user }

  /** The Postgres half of the clearing: one commit. */
  function ClearRows(w: World, user: string): World {
    var gone := RowIds(w, user);
    if gone == {} then w
    else w.(rows := w.rows - gone, order := KeepOthers(w.order, gone), events := KeepEvents(w.events, gone))
  }

  /** `_clear_user_namespace`, carried to its end. */
  function ClearUser(w: World, user: string): World {
    var cleared := ClearRows(w, user);
    cleared.(edges := DropEdges(cleared.edges, user))
  }

  /** `owned` and `facts` are the two graph deletes; the first one removes memory nodes only. */
  datatype ClearFaults = ClearFaults(commit: Attempt, owned: Attempts, facts: Attempts)

  const NoClearFaults := ClearFaults(Succeeds, Attempts(Succeeds, Succeeds), Attempts(Succeeds, Succeeds))

  /** `_clear_user_namespace`, and whether it returns. */
  function ClearStep(w: World, user: string, f: ClearFaults): (World, bool) {
    var found := RowIds(w, user) != {};
    var w1 := if TakesEffect(f.commit) then ClearRows(w, user) else w;
    if found && f.commit != Succeeds then (w1, false)
    else if !Ok(f.owned) then (ClearRows(w, user), false)
    else (WithEdges(ClearRows(w, user), DropUser(user), Copies(f.facts)), Ok(f.facts))
  }

  /* ---------- one case ---------- */

  datatype Seeded = Seeded(w: World, labels: map<string, Uuid>, flagged: set<Uuid>)

  function SeedRequest(c: Case, seed: Seed, id: Uuid): AddRequest {
    AddRequest(id, seed.text, c.user, Some("eval"), Some(c.caseId), true, seed.sarcasm)
  }

  /** One seed; `None` when the backend raises. */
  function SeedStep(t: Text, c: Case, s: Seeded, seed: Seed, id: Uuid): Option<Seeded> {
    var (w', reply) := AddStep(t, s.w, SeedRequest(c, seed, id), NoFaults);
    match reply
    case AddRaised => None
    case NotStored(_, _) => Some(s.(w := w'))
    case Stored(_, _, _, _) =>
      Some(Seeded(w', s.labels[seed.name := id], if seed.sarcasm || seed.falseFact then s.flagged + {id}
        else s.flagged))
  }

  type SeedFn = (Seeded, Seed, Uuid) -> Option<Seeded>

  function SeedsBy(t: Text, c: Case): SeedFn {
    (s, seed, id: Uuid) => SeedStep(t, c, s, seed, id)
  }

  /** The first `n` seeds from `start`; `ids` are the uuids drawn for them. */
  function SeedMany(step: SeedFn, start: Seeded, seeds: seq<Seed>, ids: seq<Uuid>, n: nat): Option<Seeded>
    requires n <= |seeds| == |ids|
  {
    if n == 0 then Some(start)
    else
      var before := SeedMany(step, start, seeds, ids, n - 1);
      if before.None? then None else step(before.value, seeds[n - 1], ids[n - 1])
  }

  function Cleared(w: World, user: string): Seeded { Seeded(ClearUser(w, user), map[], {}) }

  /** All seeds of a case, after clearing the namespace. */
  function SeedAll(t: Text, w: World, c: Case, ids: seq<Uuid>): Option<Seeded>
    requires |c.seeds| == |ids|
  {
    SeedMany(SeedsBy(t, c), Cleared(w, c.user), c.seeds, ids, |ids|)
  }

  function ExpectedId(c: Case, labels: map<string, Uuid>): Option<Uuid> {
    if c.expectedLabel.Some? && c.expectedLabel.value != "" && c.expectedLabel.value in labels
    then Some(labels[c.expectedLabel.value]) else None
  }

  function Judge(t: Text, c: Case, s: Seeded): CaseResult {
    var expected := ExpectedId(c, s.labels);
    var retrieved := Search(t, s.w, c.user, c.query, EVAL_TOP_K);
    var mode := ClassifyCase(expected, Ids(retrieved), InactiveIds(s.w, c.user), s.flagged);
    CaseResult(expected, retrieved, mode, if mode == NoFailure then 1.0 else 0.0)
  }

  /** A completed case: the stores and labels after seeding, and the result. */
  datatype Done = Done(seeded: Seeded, result: CaseResult)

  /** `_run_case`: clear and seed, then search and classify; `None` when seeding raises.  One uuid is drawn per seed. */
  function RunCase(t: Text, c: Case, ids: seq<Uuid>, before: World): Option<Done> {
    if |c.seeds| != |ids| then None
    else
      var s := SeedAll(t, before, c, ids);
      if s.None? then None else Some(Done(s.value, Judge(t, c, s.value)))
  }

  type CaseFn = (Case, seq<Uuid>, World) -> Option<Done>

  function CasesBy(t: Text): CaseFn {
    (c, ids, before) => RunCase(t, c, ids, before)
  }

  /* ---------- the whole benchmark ---------- */

  ghost predicate Drawn(cases: seq<Case>, ids: seq<seq<Uuid>>) {
    |ids| == |cases| && forall i :: 0 <= i < |cases| ==> |ids[i]| == |cases[i].seeds|
  }

  /** The first `|ds|` cases complete, one after the other from `w`, as `ds` says. */
  ghost predicate Evaluates(run: CaseFn, cases: seq<Case>, ids: seq<seq<Uuid>>, w: World, ds: seq<Done>)
    requires Drawn(cases, ids)
  {
    && |ds| <= |cases|
    && forall i {:trigger WorldBefore(w, ds, i)} :: 0 <= i < |ds| ==>
      run(cases[i], ids[i], WorldBefore(w, ds, i)) == Some(ds[i])
  }

  /** The case after those in `ds` raises. */
  ghost predicate CaseRaises(run: CaseFn, cases: seq<Case>, ids: seq<seq<Uuid>>, w: World, ds: seq<Done>)
    requires Drawn(cases, ids)
  {
    |ds| < |cases| && run(cases[|ds|], ids[|ds|], WorldBefore(w, ds, |ds|)).None?
  }

  /** The stores before case `i`. */
  function WorldBefore(w: World, ds: seq<Done>, i: nat): World
    requires i <= |ds|
  {
    if i == 0 then w else ds[i - 1].seeded.w
  }

  function Results(ds: seq<Done>): (rs: seq<CaseResult>)
    ensures |rs| == |ds| && forall i :: 0 <= i < |ds| ==> rs[i] == ds[i].result
  {
    seq(|ds|, i requires 0 <= i < |ds| => ds[i].result)
  }

  function ExpectedIds(rs: seq<CaseResult>): (e: seq<Expected>)
    ensures |e| == |rs| && forall i :: 0 <= i < |rs| ==> e[i] == rs[i].expected
  {
    seq(|rs|, i requires 0 <= i < |rs| => rs[i].expected)
  }

  function RetrievedIds(rs: seq<CaseResult>): (e: seq<seq<Uuid>>)
    ensures |e| == |rs| && forall i :: 0 <= i < |rs| ==> e[i] == Ids(rs[i].retrieved)
  {
    seq(|rs|, i requires 0 <= i < |rs| => Ids(rs[i].retrieved))
  }

  function Modes(rs: seq<CaseResult>): (e: seq<FailureMode>)
    ensures |e| == |rs| && forall i :: 0 <= i < |rs| ==> e[i] == rs[i].mode
  {
    seq(|rs|, i requires 0 <= i < |rs| => rs[i].mode)
  }

  class EvalRunner {
    const backend: MockMemoryBackend

    constructor (backend: MockMemoryBackend)
      ensures this.backend == backend
    {
      this.backend := backend;
    }

    method ClearUserNamespace(user: string, f: ClearFaults) returns (ok: bool)
      modifies backend, backend.graph
      ensures (backend.Contents(), ok) == ClearStep(old(backend.Contents()), user, f)
    {
      var gone := RowIds(backend.Contents(), user);
      if gone != {} {
        if TakesEffect(f.commit) {
          backend.events := KeepEvents(backend.events, gone);
          backend.rows, backend.order := backend.rows - gone, KeepOthers(backend.order, gone);
        }
        if f.commit != Succeeds {
          return false;
        }
      }
      if !Ok(f.owned) {
        return false;
      }
      ok := backend.graph.RunWrite(DropUser(user), f.facts);
    }

    /** One seed through the backend. */
    method AddSeed(c: Case, seed: Seed, id: Uuid, labels: map<string, Uuid>, flagged: set<Uuid>)
      returns (ok: bool, labels': map<string, Uuid>, flagged': set<Uuid>)
      modifies backend, backend.graph
      ensures
        var spec := SeedsBy(backend.t, c)(Seeded(old(backend.Contents()), labels, flagged), seed, id);
        ok == spec.Some? && (ok ==> spec == Some(Seeded(backend.Contents(), labels', flagged')))
    {
      labels', flagged' := labels, flagged;
      var reply := backend.Add(SeedRequest(c, seed, id), NoFaults);
      if reply.Stored? {
        labels' := labels[seed.name := id];
        if seed.sarcasm || seed.falseFact {
          flagged' := flagged + {id};
        }
      }
      ok := !reply.AddRaised?;
    }

    /** The first half of `_run_case`: clear the namespace, then add the seeds. */
    method SeedMemories(c: Case, ids: seq<Uuid>) returns (ok: bool, labels: map<string, Uuid>, flagged: set<Uuid>)
      requires |c.seeds| == |ids|
      modifies backend, backend.graph
      ensures
        var spec := SeedAll(backend.t, old(backend.Contents()), c, ids);
        ok == spec.Some? && (ok ==> spec == Some(Seeded(backend.Contents(), labels, flagged)))
    {
      ghost var step, start := SeedsBy(backend.t, c), Cleared(backend.Contents(), c.user);
      var cleared := ClearUserNamespace(c.user, NoClearFaults);
      ClearSucceeds(old(backend.Contents()), c.user, NoClearFaults);
      labels, flagged := map[], {};
      for i := 0 to |ids|
        invariant SeedMany(step, start, c.seeds, ids, i) == Some(Seeded(backend.Contents(), labels, flagged))
      {
        SeedNext(step, start, c.seeds, ids, i, Seeded(backend.Contents(), labels, flagged));
        ok, labels, flagged := AddSeed(c, c.seeds[i], ids[i], labels, flagged);
        if !ok {
          SeedingStopped(step, start, c.seeds, ids, i + 1, |ids|);
          return;
        }
      }
      ok := true;
    }

    /** `_run_case`, through the backend. */
    method RunOneCase(c: Case, ids: seq<Uuid>) returns (r: Option<CaseResult>, ghost s: Seeded)
      requires |c.seeds| == |ids|
      modifies backend, backend.graph
      ensures RunCase(backend.t, c, ids, old(backend.Contents())) == if r.None? then None else Some(Done(s, r.value))
      ensures r.Some? ==> s.w == backend.Contents()
    {
      var ok, labels, flagged := SeedMemories(c, ids);
      s := Seeded(backend.Contents(), labels, flagged);
      if !ok {
        return None, s;
      }
      var expected := ExpectedId(c, labels);
      var retrieved := backend.SearchFor(c.query, c.user, EVAL_TOP_K);
      var inactive := InactiveIds(backend.Contents(), c.user);
      var mode := ClassifyCase(expected, Ids(retrieved), inactive, flagged);
      r := Some(CaseResult(expected, retrieved, mode, if mode == NoFailure then 1.0 else 0.0));
    }

    /** The loop of `run_eval`; it ends early exactly when a case raises. */
    method CollectCases(cases: seq<Case>, ids: seq<seq<Uuid>>) returns (ok: bool, results: seq<CaseResult>,
                        ghost ds: seq<Done>)
      requires Drawn(cases, ids)
      modifies backend, backend.graph
      ensures Evaluates(CasesBy(backend.t), cases, ids, old(backend.Contents()), ds) && results == Results(ds)
      ensures ok ==> |ds| == |cases| && WorldBefore(old(backend.Contents()), ds, |cases|) == backend.Contents()
      ensures !ok ==> CaseRaises(CasesBy(backend.t), cases, ids, old(backend.Contents()), ds)
    {
      ghost var w, run := backend.Contents(), CasesBy(backend.t);
      ds, results := [], [];
      for i := 0 to |cases|
        invariant |ds| == i && results == Results(ds)
        invariant WorldBefore(w, ds, i) == backend.Contents()
        invariant Evaluates(run, cases, ids, w, ds)
      {
        var r, s := RunOneCase(cases[i], ids[i]);
        if r.None? {
          return false, results, ds;
        }
        EvaluatesPush(run, cases, ids, w, ds, Done(s, r.value));
        results, ds := results + [r.value], ds + [Done(s, r.value)];
      }
      ok := true;
    }

    /** `run_eval`: every case, then the metrics and the gate.  Latencies are measured outside. */
    method RunEval(cases: seq<Case>, ids: seq<seq<Uuid>>, searchMs: seq<real>, addMs: seq<real>,
                   baseline: Option<Baseline>, setBaseline: bool)
      returns (m: Option<Metrics>, passed: bool, results: seq<CaseResult>, ghost ds: seq<Done>)
      requires Drawn(cases, ids)
      modifies backend, backend.graph
      ensures Evaluates(CasesBy(backend.t), cases, ids, old(backend.Contents()), ds) && results == Results(ds)
      ensures m.Some? ==>
        && |ds| == |cases| && WorldBefore(old(backend.Contents()), ds, |cases|) == backend.Contents()
        && m.value.recallAt5 == Recall(ExpectedIds(results), RetrievedIds(results), 5)
        && Precision(ExpectedIds(results), RetrievedIds(results)) == Some(m.value.precision)
        && m.value.stalenessRate == Rate(Modes(results), StaleFact)
        && m.value.falseFactRate == Rate(Modes(results), FalseFact)
        && m.value.p95Search == P95(searchMs) && m.value.p95Add == P95(addMs) && m.value.totalCases == |cases|
        && passed == CompareToBaseline(m.value, baseline, setBaseline).0
      ensures m.None? ==> CaseRaises(CasesBy(backend.t), cases, ids, old(backend.Contents()), ds)
    {
      passed := false;
      m := None;
      var ok;
      ok, results, ds := CollectCases(cases, ids);
      if !ok {
        return;
      }
      var recall := RecallAtK(ExpectedIds(results), RetrievedIds(results), 5);
      var precision := ComputePrecision(ExpectedIds(results), RetrievedIds(results));
      var modes := Modes(results);
      m := Some(Metrics(recall, precision.value, Rate(modes, StaleFact), Rate(modes, FalseFact), P95(searchMs),
        P95(addMs), |cases|));
      passed := CompareToBaseline(m.value, baseline, setBaseline).0;
    }
  }

  lemma EvaluatesPush(run: CaseFn, cases: seq<Case>, ids: seq<seq<Uuid>>, w: World, ds: seq<Done>, d: Done)
    requires Drawn(cases, ids) && Evaluates(run, cases, ids, w, ds) && |ds| < |cases|
    requires run(cases[|ds|], ids[|ds|], WorldBefore(w, ds, |ds|)) == Some(d)
    ensures Evaluates(run, cases, ids, w, ds + [d])
    ensures Results(ds + [d]) == Results(ds) + [d.result]
    ensures WorldBefore(w, ds + [d], |ds| + 1) == d.seeded.w
  {
    forall i | 0 <= i <= |ds| ensures WorldBefore(w, ds + [d], i) == WorldBefore(w, ds, i) {}
  }

  lemma {:induction false} KeptEdges(edges: seq<Edge>, user: string)
    requires forall e :: e in edges ==> e.user != user
    ensures DropEdges(edges, user) == edges
  {
    if edges != [] {
      var n := |edges| - 1;
      assert edges == edges[..n] + [edges[n]];
      KeptEdges(edges[..n], user);
    }
  }

  lemma {:induction false} DropTimes(edges: seq<Edge>, user: string, n: nat)
    ensures ApplyTimes(edges, DropUser(user), n) == if n == 0 then edges else DropEdges(edges, user)
  {
    if n > 1 {
      DropTimes(edges, user, n - 1);
      KeptEdges(DropEdges(edges, user), user);
    } else if n == 1 {
      DropTimes(edges, user, 0);
    }
  }

  /** A clearing that returns is complete, retried graph deletes included. */
  lemma ClearSucceeds(w: World, user: string, f: ClearFaults)
    ensures ClearStep(w, user, f).1 ==> ClearStep(w, user, f).0 == ClearUser(w, user)
  {
    DropTimes(ClearRows(w, user).edges, user, Copies(f.facts));
  }

  lemma SeedNext(step: SeedFn, start: Seeded, seeds: seq<Seed>, ids: seq<Uuid>, i: nat, s: Seeded)
    requires i < |seeds| == |ids| && SeedMany(step, start, seeds, ids, i) == Some(s)
    ensures SeedMany(step, start, seeds, ids, i + 1) == step(s, seeds[i], ids[i])
  {
  }

  lemma {:induction false} SeedingStopped(step: SeedFn, start: Seeded, seeds: seq<Seed>, ids: seq<Uuid>, i: nat, n: nat)
    requires i <= n <= |seeds| == |ids| && SeedMany(step, start, seeds, ids, i).None?
    ensures SeedMany(step, start, seeds, ids, n).None?
  {
    if i < n { SeedingStopped(step, start, seeds, ids, i, n - 1); }
  }
}
