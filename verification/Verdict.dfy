/** What the benchmark can conclude about the rule-based backend, for every dataset and every prior state. */
module Verdict {
  import opened Domain
  import opened Retrieval
  import opened Stores
  import opened MockBackend
  import opened Outcomes
  import opened Visibility
  import opened Scoring
  import opened Runner

  /* ---------- classification ---------- */

  /** The verdict on every input, by positions in the retrieved list: a flagged memory outweighs an inactive one, which
      outweighs a missing expected one. */
  lemma ClassifyPrecedence(expected: Option<Uuid>, retrieved: seq<Uuid>, inactive: set<Uuid>, flagged: set<Uuid>)
    ensures
      var mode := ClassifyCase(expected, retrieved, inactive, flagged);
      && (mode == FalseFact <==> exists p :: 0 <= p < |retrieved| && retrieved[p] in flagged)
      && (mode == StaleFact <==>
            && (forall p :: 0 <= p < |retrieved| ==> retrieved[p] !in flagged)
            && exists p :: 0 <= p < |retrieved| && retrieved[p] in inactive)
      && (mode == RetrievalMiss <==>
            && (forall p :: 0 <= p < |retrieved| ==> retrieved[p] !in flagged && retrieved[p] !in inactive)
            && expected.Some? && forall p :: 0 <= p < |retrieved| ==> retrieved[p] != expected.value)
      && (mode == NoFailure <==>
            && (forall p :: 0 <= p < |retrieved| ==> retrieved[p] !in flagged && retrieved[p] !in inactive)
            && (expected.Some? ==> exists p :: 0 <= p < |retrieved| && retrieved[p] == expected.value))
  {
    assert forall id :: id in retrieved ==> exists p :: 0 <= p < |retrieved| && retrieved[p] == id;
  }

  /** A retrieved row that is inactive, at any place among unflagged ones, makes the case stale. */
  lemma InactiveRowIsStale(expected: Option<Uuid>, a: seq<Uuid>, id: Uuid, b: seq<Uuid>, w: World, user: string,
                           flagged: set<Uuid>)
    requires id in w.rows && w.rows[id].user == user && !w.rows[id].active
    requires forall x :: x in a + [id] + b ==> x !in flagged
    ensures ClassifyCase(expected, a + [id] + b, InactiveIds(w, user), flagged) == StaleFact
  {
    assert (a + [id] + b)[|a|] == id;
    ClassifyPrecedence(expected, a + [id] + b, InactiveIds(w, user), flagged);
  }

  /** A case is stale only by a retrieved row of the user that is inactive. */
  lemma StaleOnlyByRow(expected: Option<Uuid>, retrieved: seq<Uuid>, w: World, user: string, flagged: set<Uuid>)
    requires ClassifyCase(expected, retrieved, InactiveIds(w, user), flagged) == StaleFact
    ensures exists p :: 0 <= p < |retrieved| && retrieved[p] in w.rows && w.rows[retrieved[p]].user == user
                        && !w.rows[retrieved[p]].active
  {
    ClassifyPrecedence(expected, retrieved, InactiveIds(w, user), flagged);
  }

  /** The rule-based backend never yields `stale_fact`, whatever the case and whatever the stores held before. */
  lemma NeverStale(t: Text, c: Case, ids: seq<Uuid>, before: World)
    ensures var done := RunCase(t, c, ids, before); done.Some? ==> done.value.result.mode != StaleFact
  {
    var done := RunCase(t, c, ids, before);
    if done.Some? {
      RetrievedAreActive(t, done.value.seeded.w, c.user, c.query, EVAL_TOP_K);
    }
  }

  /** Hence the staleness rate of every evaluation is zero. */
  lemma StalenessRateIsZero(t: Text, cases: seq<Case>, ids: seq<seq<Uuid>>, w: World, ds: seq<Done>)
    requires Drawn(cases, ids) && Evaluates(CasesBy(t), cases, ids, w, ds)
    ensures Rate(Modes(Results(ds)), StaleFact) == 0.0
  {
    forall i | 0 <= i < |ds| ensures ds[i].result.mode != StaleFact {
      NeverStale(t, cases[i], ids[i], WorldBefore(w, ds, i));
    }
    RateZero(Modes(Results(ds)), StaleFact);
  }

  /** What seeding keeps: it hands out ids of the user's own rows, and only superseding retires them. */
  ghost predicate SeedingOk(s: Seeded, user: string) {
    && (forall l :: l in s.labels ==> Mine(s.w, s.labels[l], user))
    && (forall id :: id in s.flagged ==> Mine(s.w, id, user))
    && (forall id :: id in s.w.rows && s.w.rows[id].user == user && !s.w.rows[id].active ==>
      s.w.rows[id].supersededBy.Some?)
  }

  ghost predicate Mine(w: World, id: Uuid, user: string) {
    id in w.order && id in w.rows && w.rows[id].user == user
  }

  /** A seed that is stored: the new row, and at most one older row superseded by it. */
  ghost predicate StoresSeed(s: Seeded, s': Seeded, user: string, name: string, id: Uuid) {
    && id !in s.w.rows && s'.w.order == s.w.order + [id]
    && s'.w.rows.Keys == s.w.rows.Keys + {id}
    && s'.w.rows[id].user == user && s'.w.rows[id].active
    && (forall x :: x in s.w.rows ==>
      s'.w.rows[x] == s.w.rows[x] || s'.w.rows[x] == s.w.rows[x].(active := false, supersededBy := Some(id)))
    && s'.labels == s.labels[name := id]
    && s'.flagged <= s.flagged + {id}
  }

  lemma SeedStored(t: Text, c: Case, s: Seeded, seed: Seed, id: Uuid)
    requires SeedStep(t, c, s, seed, id).Some?
    ensures FactOf(t, SeedRequest(c, seed, id)).Some?
      ==> StoresSeed(s, SeedStep(t, c, s, seed, id).value, c.user, seed.name, id)
    ensures FactOf(t, SeedRequest(c, seed, id)).None? ==>
      var s' := SeedStep(t, c, s, seed, id).value;
      s'.w.rows == s.w.rows && s'.w.order == s.w.order && s'.labels == s.labels && s'.flagged == s.flagged
  {
  }

  lemma StoredSeedOk(s: Seeded, s': Seeded, user: string, name: string, id: Uuid)
    requires SeedingOk(s, user) && StoresSeed(s, s', user, name, id)
    ensures SeedingOk(s', user)
  {
  }

  lemma SeedStepOk(t: Text, c: Case, s: Seeded, seed: Seed, id: Uuid)
    requires SeedingOk(s, c.user) && SeedStep(t, c, s, seed, id).Some?
    ensures SeedingOk(SeedStep(t, c, s, seed, id).value, c.user)
  {
    SeedStored(t, c, s, seed, id);
    var s' := SeedStep(t, c, s, seed, id).value;
    if FactOf(t, SeedRequest(c, seed, id)).Some? {
      StoredSeedOk(s, s', c.user, seed.name, id);
    } else {
      assert forall x :: Mine(s.w, x, c.user) <==> Mine(s'.w, x, c.user);
    }
  }

  lemma {:induction false} SeedManyOk(t: Text, c: Case, start: Seeded, ids: seq<Uuid>, n: nat)
    requires n <= |c.seeds| == |ids| && SeedingOk(start, c.user)
    ensures var r := SeedMany(SeedsBy(t, c), start, c.seeds, ids, n); r.Some? ==> SeedingOk(r.value, c.user)
  {
    if n > 0 {
      SeedManyOk(t, c, start, ids, n - 1);
      var before := SeedMany(SeedsBy(t, c), start, c.seeds, ids, n - 1);
      if before.Some? && SeedStep(t, c, before.value, c.seeds[n - 1], ids[n - 1]).Some? {
        SeedStepOk(t, c, before.value, c.seeds[n - 1], ids[n - 1]);
      }
    }
  }

  lemma ClearedOk(w: World, user: string)
    ensures SeedingOk(Cleared(w, user), user)
  {
    assert forall id :: id in w.rows && w.rows[id].user == user ==> id in RowIds(w, user);
  }

  /* ---------- when a case completes ---------- */

  predicate StoresFact(t: Text, c: Case, i: nat)
    requires i < |c.seeds|
  {
    var text := t.strip(c.seeds[i].text);
    !c.seeds[i].sarcasm && !t.sarcastic(text) && t.extract(text).Some?
  }

  /** The uuids the first `n` seeds use up. */
  function Spent(t: Text, c: Case, ids: seq<Uuid>, n: nat): set<Uuid>
    requires n <= |c.seeds| == |ids|
  {
    if n == 0 then {} else Spent(t, c, ids, n - 1) + if StoresFact(t, c, n - 1) then {ids[n - 1]} else {}
  }

  /** No seed that stores a fact draws a uuid that is in use. */
  predicate FreshDraw(t: Text, c: Case, ids: seq<Uuid>, used: set<Uuid>, n: nat)
    requires n <= |c.seeds| == |ids|
  {
    n > 0 ==>
      && FreshDraw(t, c, ids, used, n - 1)
      && (StoresFact(t, c, n - 1) ==> ids[n - 1] !in used && ids[n - 1] !in Spent(t, c, ids, n - 1))
  }

  lemma SeedCompletes(t: Text, c: Case, s: Seeded, i: nat, id: Uuid)
    requires i < |c.seeds|
    ensures
      var r := SeedStep(t, c, s, c.seeds[i], id);
      && (r.Some? <==> (StoresFact(t, c, i) ==> id !in s.w.rows))
      && (r.Some? ==> r.value.w.rows.Keys == s.w.rows.Keys + if StoresFact(t, c, i) then {id} else {})
  {
    if SeedStep(t, c, s, c.seeds[i], id).Some? { SeedStored(t, c, s, c.seeds[i], id); }
  }

  ghost predicate CompletedAs(r: Option<Seeded>, complete: bool, keys: set<Uuid>) {
    (r.Some? <==> complete) && (r.Some? ==> r.value.w.rows.Keys == keys)
  }

  lemma {:induction false} SeedingCompletesIff(t: Text, c: Case, start: Seeded, ids: seq<Uuid>, n: nat)
    requires n <= |c.seeds| == |ids|
    ensures CompletedAs(SeedMany(SeedsBy(t, c), start, c.seeds, ids, n),
                        FreshDraw(t, c, ids, start.w.rows.Keys, n), start.w.rows.Keys + Spent(t, c, ids, n))
  {
    if n > 0 {
      SeedingCompletesIff(t, c, start, ids, n - 1);
      var before := SeedMany(SeedsBy(t, c), start, c.seeds, ids, n - 1);
      if before.Some? { SeedCompletes(t, c, before.value, n - 1, ids[n - 1]); }
    }
  }

  /** With working stores a case completes exactly when one uuid was drawn per seed and those of the stored seeds are
      new: different from each other and from the rows of the other users. */
  lemma CaseCompletesIff(t: Text, c: Case, ids: seq<Uuid>, before: World)
    ensures RunCase(t, c, ids, before).Some?
      <==> |ids| == |c.seeds| && FreshDraw(t, c, ids, before.rows.Keys - RowIds(before, c.user), |ids|)
  {
    if |ids| == |c.seeds| {
      SeedingCompletesIff(t, c, Cleared(before, c.user), ids, |ids|);
      assert Cleared(before, c.user).w.rows.Keys == before.rows.Keys - RowIds(before, c.user);
    }
  }

  ghost predicate FlaggedActive(s: Seeded, user: string) {
    exists id :: id in s.flagged && ActiveFor(s.w.rows, id, user)
  }

  /** With at most five active rows the verdict does not depend on ranking at all. */
  lemma SmallCaseVerdict(t: Text, c: Case, ids: seq<Uuid>, before: World, s: Seeded, r: CaseResult)
    requires RunCase(t, c, ids, before) == Some(Done(s, r)) && |ActiveOf(s.w.order, s.w.rows, c.user)| <= 5
    ensures r.expected.Some? ==> r.expected.value in s.w.rows
    ensures r.mode ==
      if FlaggedActive(s, c.user) then FalseFact
      else if r.expected.Some? && s.w.rows[r.expected.value].supersededBy.Some?
        && !s.w.rows[r.expected.value].active then RetrievalMiss
      else NoFailure
  {
    ClearedOk(before, c.user);
    SeedManyOk(t, c, Cleared(before, c.user), ids, |ids|);
    RetrievedAreActive(t, s.w, c.user, c.query, EVAL_TOP_K);
    forall id | Mine(s.w, id, c.user) && s.w.rows[id].active ensures id in Ids(r.retrieved) {
      AllActiveRetrieved(t, s.w, c.user, c.query, EVAL_TOP_K, id);
    }
    ClassifySmall(s, c.user, r.expected, Ids(r.retrieved));
  }

  /** Classification when exactly the active rows are retrieved. */
  lemma ClassifySmall(s: Seeded, user: string, expected: Option<Uuid>, retrieved: seq<Uuid>)
    requires SeedingOk(s, user) && (expected.Some? ==> Mine(s.w, expected.value, user))
    requires forall id :: id in retrieved ==> ActiveFor(s.w.rows, id, user)
    requires forall id :: Mine(s.w, id, user) && s.w.rows[id].active ==> id in retrieved
    ensures ClassifyCase(expected, retrieved, InactiveIds(s.w, user), s.flagged) ==
      if FlaggedActive(s, user) then FalseFact
      else if expected.Some? && s.w.rows[expected.value].supersededBy.Some?
        && !s.w.rows[expected.value].active then RetrievalMiss
      else NoFailure
  {
  }

  /* ---------- labels, flags and rows ---------- */

  /** The last stored seed of a name among the first `n`. */
  function LastStored(t: Text, c: Case, name: string, n: nat): (r: Option<nat>)
    requires n <= |c.seeds|
    ensures r.Some? ==> r.value < n && StoresFact(t, c, r.value) && c.seeds[r.value].name == name
    ensures forall i :: (if r.Some? then r.value + 1 else 0) <= i < n && StoresFact(t, c, i) ==> c.seeds[i].name != name
  {
    if n == 0 then None
    else if StoresFact(t, c, n - 1) && c.seeds[n - 1].name == name then Some(n - 1)
    else LastStored(t, c, name, n - 1)
  }

  ghost predicate LabelledBySeeds(t: Text, c: Case, labels: map<string, Uuid>, ids: seq<Uuid>, n: nat)
    requires n <= |c.seeds| == |ids|
  {
    forall name :: match LastStored(t, c, name, n)
                   case None => name !in labels
                   case Some(i) => name in labels && labels[name] == ids[i]
  }

  /** A stored seed that should be a false fact drew the id. */
  ghost predicate FalseSeed(t: Text, c: Case, ids: seq<Uuid>, n: nat, id: Uuid)
    requires n <= |c.seeds| == |ids|
  {
    exists i :: 0 <= i < n && ids[i] == id && StoresFact(t, c, i) && c.seeds[i].falseFact
  }

  ghost predicate FlaggedBySeeds(t: Text, c: Case, flagged: set<Uuid>, ids: seq<Uuid>, n: nat)
    requires n <= |c.seeds| == |ids|
  {
    forall id :: id in flagged <==> FalseSeed(t, c, ids, n, id)
  }

  /** The row is what the case's seed left. */
  ghost predicate SeedRow(t: Text, c: Case, i: nat, row: Row)
    requires i < |c.seeds|
  {
    && row.user == c.user && row.agentId == Some("eval") && row.runId == Some(c.caseId)
    && row.content == t.strip(c.seeds[i].text) && row.embedding == t.embed(t.strip(c.seeds[i].text))
  }

  ghost predicate RowBySeed(t: Text, c: Case, ids: seq<Uuid>, n: nat, id: Uuid, row: Row)
    requires n <= |c.seeds| == |ids|
  {
    exists i :: 0 <= i < n && ids[i] == id && StoresFact(t, c, i) && SeedRow(t, c, i, row)
  }

  ghost predicate RowsBySeeds(t: Text, c: Case, rows: map<Uuid, Row>, ids: seq<Uuid>, n: nat)
    requires n <= |c.seeds| == |ids|
  {
    && (forall i :: 0 <= i < n && StoresFact(t, c, i) ==> ids[i] in rows && SeedRow(t, c, i, rows[ids[i]]))
    && (forall id :: id in rows && rows[id].user == c.user ==> RowBySeed(t, c, ids, n, id, rows[id]))
  }

  /** One seed's effect on labels, flags and rows; a sarcastic seed is never stored, hence never flagged. */
  ghost predicate Marked(t: Text, c: Case, s: Seeded, s': Seeded, i: nat, id: Uuid)
    requires i < |c.seeds|
  {
    && (forall x :: x in s.w.rows ==>
          x in s'.w.rows && s'.w.rows[x].(active := true, supersededBy := None)
                            == s.w.rows[x].(active := true, supersededBy := None))
    && if StoresFact(t, c, i) then
         && id !in s.w.rows && s'.w.rows.Keys == s.w.rows.Keys + {id} && SeedRow(t, c, i, s'.w.rows[id])
         && s'.labels == s.labels[c.seeds[i].name := id]
         && s'.flagged == s.flagged + if c.seeds[i].falseFact then {id} else {}
       else s'.w.rows == s.w.rows && s'.labels == s.labels && s'.flagged == s.flagged
  }

  lemma SeedIsMarked(t: Text, c: Case, s: Seeded, i: nat, id: Uuid)
    requires i < |c.seeds| && SeedStep(t, c, s, c.seeds[i], id).Some?
    ensures Marked(t, c, s, SeedStep(t, c, s, c.seeds[i], id).value, i, id)
  {
    SeedStored(t, c, s, c.seeds[i], id);
    if StoresFact(t, c, i) { AcceptedIsStored(t, s.w, SeedRequest(c, c.seeds[i], id)); }
  }

  ghost predicate BySeeds(t: Text, c: Case, s: Seeded, ids: seq<Uuid>, n: nat)
    requires n <= |c.seeds| == |ids|
  {
    && LabelledBySeeds(t, c, s.labels, ids, n) && FlaggedBySeeds(t, c, s.flagged, ids, n)
    && RowsBySeeds(t, c, s.w.rows, ids, n)
  }

  lemma MarkedRows(t: Text, c: Case, s: Seeded, s': Seeded, ids: seq<Uuid>, n: nat)
    requires n < |c.seeds| == |ids| && RowsBySeeds(t, c, s.w.rows, ids, n) && Marked(t, c, s, s', n, ids[n])
    ensures RowsBySeeds(t, c, s'.w.rows, ids, n + 1)
  {
    forall id | id in s'.w.rows && s'.w.rows[id].user == c.user
      ensures RowBySeed(t, c, ids, n + 1, id, s'.w.rows[id])
    {
      if id in s.w.rows {
        assert RowBySeed(t, c, ids, n, id, s.w.rows[id]);
        var i :| 0 <= i < n && ids[i] == id && StoresFact(t, c, i) && SeedRow(t, c, i, s.w.rows[id]);
        assert SeedRow(t, c, i, s'.w.rows[id]);
      }
    }
  }

  lemma MarkedFlags(t: Text, c: Case, s: Seeded, s': Seeded, ids: seq<Uuid>, n: nat)
    requires n < |c.seeds| == |ids| && FlaggedBySeeds(t, c, s.flagged, ids, n) && Marked(t, c, s, s', n, ids[n])
    ensures FlaggedBySeeds(t, c, s'.flagged, ids, n + 1)
  {
    forall id ensures id in s'.flagged <==> FalseSeed(t, c, ids, n + 1, id) {
      assert id in s.flagged <==> FalseSeed(t, c, ids, n, id);
    }
  }

  lemma MarkedLabels(t: Text, c: Case, s: Seeded, s': Seeded, ids: seq<Uuid>, n: nat)
    requires n < |c.seeds| == |ids| && LabelledBySeeds(t, c, s.labels, ids, n) && Marked(t, c, s, s', n, ids[n])
    ensures LabelledBySeeds(t, c, s'.labels, ids, n + 1)
  {
  }

  lemma MarksKept(t: Text, c: Case, s: Seeded, s': Seeded, ids: seq<Uuid>, n: nat)
    requires n < |c.seeds| == |ids| && BySeeds(t, c, s, ids, n) && Marked(t, c, s, s', n, ids[n])
    ensures BySeeds(t, c, s', ids, n + 1)
  {
    MarkedLabels(t, c, s, s', ids, n);
    MarkedFlags(t, c, s, s', ids, n);
    MarkedRows(t, c, s, s', ids, n);
  }

  lemma NothingSeeded(t: Text, c: Case, before: World, ids: seq<Uuid>)
    requires |ids| == |c.seeds|
    ensures BySeeds(t, c, Cleared(before, c.user), ids, 0)
  {
    assert forall id :: id in before.rows && before.rows[id].user == c.user ==> id in RowIds(before, c.user);
  }

  lemma {:induction false} SeedsMark(t: Text, c: Case, before: World, ids: seq<Uuid>, n: nat)
    requires n <= |c.seeds| == |ids|
    ensures
      var r := SeedMany(SeedsBy(t, c), Cleared(before, c.user), c.seeds, ids, n);
      r.Some? ==> BySeeds(t, c, r.value, ids, n)
  {
    if n == 0 {
      NothingSeeded(t, c, before, ids);
    } else {
      SeedsMark(t, c, before, ids, n - 1);
      var s := SeedMany(SeedsBy(t, c), Cleared(before, c.user), c.seeds, ids, n - 1);
      if s.Some? && SeedStep(t, c, s.value, c.seeds[n - 1], ids[n - 1]).Some? {
        SeedIsMarked(t, c, s.value, n - 1, ids[n - 1]);
        MarksKept(t, c, s.value, SeedStep(t, c, s.value, c.seeds[n - 1], ids[n - 1]).value, ids, n - 1);
      }
    }
  }

  /** Classification by seeds when nothing retrieved is stale. */
  lemma ClassifyBySeeds(t: Text, c: Case, ids: seq<Uuid>, expected: Option<Uuid>, retrieved: seq<Uuid>,
                        inactive: set<Uuid>, flagged: set<Uuid>)
    requires |ids| == |c.seeds| && FlaggedBySeeds(t, c, flagged, ids, |ids|)
    requires forall id :: id in retrieved ==> id !in inactive
    ensures ClassifyCase(expected, retrieved, inactive, flagged) ==
      if exists id :: id in retrieved && FalseSeed(t, c, ids, |ids|, id) then FalseFact
      else if expected.Some? && expected.value !in retrieved then RetrievalMiss
      else NoFailure
  {
  }

  lemma ExpectedBySeeds(t: Text, c: Case, labels: map<string, Uuid>, ids: seq<Uuid>)
    requires |ids| == |c.seeds| && LabelledBySeeds(t, c, labels, ids, |ids|)
    ensures ExpectedId(c, labels) ==
      if c.expectedLabel.None? || c.expectedLabel.value == "" then None
      else
        match LastStored(t, c, c.expectedLabel.value, |ids|)
        case None => None
        case Some(i) => Some(ids[i])
  {
  }

  /** The verdict of a completed case, by its seeds and what was retrieved: the expected memory is that of the last
      stored seed of that name, and only a retrieved false fact or a missing expected memory costs the point. */
  lemma VerdictBySeeds(t: Text, c: Case, ids: seq<Uuid>, before: World, s: Seeded, r: CaseResult)
    requires RunCase(t, c, ids, before) == Some(Done(s, r))
    ensures |r.retrieved| <= 5 && |ids| == |c.seeds| && RowsBySeeds(t, c, s.w.rows, ids, |ids|)
    ensures r.expected ==
      if c.expectedLabel.None? || c.expectedLabel.value == "" then None
      else
        match LastStored(t, c, c.expectedLabel.value, |ids|)
        case None => None
        case Some(i) => Some(ids[i])
    ensures r.mode ==
      if exists id :: id in Ids(r.retrieved) && FalseSeed(t, c, ids, |ids|, id) then FalseFact
      else if r.expected.Some? && r.expected.value !in Ids(r.retrieved) then RetrievalMiss
      else NoFailure
    ensures r.score == if r.mode == NoFailure then 1.0 else 0.0
  {
    SeedsMark(t, c, before, ids, |ids|);
    RetrievedAreActive(t, s.w, c.user, c.query, EVAL_TOP_K);
    ExpectedBySeeds(t, c, s.labels, ids);
    ClassifyBySeeds(t, c, ids, r.expected, Ids(r.retrieved), InactiveIds(s.w, c.user), s.flagged);
  }
}
