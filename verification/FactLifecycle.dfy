/** What every run of the fact store keeps, and how its two maintenance sweeps interact. */
module FactLifecycle {
  import opened FactStore
  import opened Text
  import opened Wrappers

  datatype Op =
    | Add(content: string, category: Option<string>, tier: Tier, confidence: real, source: Source, now: real)
    | Touch(ids: seq<nat>, now: real)
    | Promote(minUses: int, now: real)
    | Decay(ttl: Lifetimes, now: real)
    | Supersede(id: nat, content: string, category: Option<string>, tier: Tier, confidence: real, source: Source, now: real)
    | Forget(id: nat, now: real)
    | Restore(id: nat, now: real)
    | Rewrite(id: nat, content: string, now: real)

  ghost predicate Step(t: Table, op: Op, t': Table) {
    match op
    case Add(content, category, tier, confidence, source, now) =>
      exists id :: Adds(t, content, category, tier, confidence, source, now, t', id)
    case Touch(ids, now) => t' == Touched(t, ids, now)
    case Promote(minUses, now) => t' == Promoted(t, minUses, now)
    case Decay(ttl, now) => t' == Decayed(t, ttl, now)
    case Supersede(id, content, category, tier, confidence, source, now) =>
      t' == Corrected(t, id, content, category, tier, confidence, source, now)
    case Forget(id, now) => t' == Forgot(t, id, now)
    case Restore(id, now) => t' == Restored(t, id, now)
    case Rewrite(id, content, now) => t' == Rewritten(t, id, content, now)
  }

  /** Callers only ever claim confidences between nought and one. */
  predicate Sane(op: Op) {
    (op.Add? || op.Supersede?) ==> 0.0 <= op.confidence <= 1.0
  }

  ghost predicate Sound(t: Table) {
    Linear(t) && forall id :: id in t.rows ==> 0.0 <= t.rows[id].confidence <= 1.0
  }

  /** What a row can only gain, and what it never changes. */
  ghost predicate Grows(f: Fact, f': Fact) {
    && TierRank(f.tier) <= TierRank(f'.tier)
    && f.useCount <= f'.useCount
    && f.confidence <= f'.confidence
    && f.source == f'.source && f.createdAt == f'.createdAt
  }

  ghost predicate TableGrows(t: Table, t': Table) {
    && t.nextId <= t'.nextId
    && forall id :: id in t.rows ==> id in t'.rows && Grows(t.rows[id], t'.rows[id])
  }

  ghost predicate Rowwise(t: Table, t': Table) {
    && t'.nextId == t.nextId && t'.rows.Keys == t.rows.Keys
    && forall id :: id in t.rows ==>
         && Grows(t.rows[id], t'.rows[id]) && t'.rows[id].supersededBy == t.rows[id].supersededBy
         && (t.rows[id].confidence <= 1.0 ==> t'.rows[id].confidence <= 1.0)
  }

  /** An operation that changes rows one by one, each for the better, keeps the table sound. */
  lemma RowwiseKeeps(t: Table, t': Table)
    requires Sound(t) && Rowwise(t, t')
    ensures Sound(t') && TableGrows(t, t')
  {
    SameLinks(t, t');
  }

  lemma SupersedeKeeps(t: Table, id: nat, content: string, category: Option<string>, tier: Tier,
                       confidence: real, source: Source, now: real)
    requires Sound(t) && 0.0 <= confidence <= 1.0
    ensures var t' := Corrected(t, id, content, category, tier, confidence, source, now);
            Sound(t') && TableGrows(t, t')
  {
    if Strip(content) != "" && id in t.rows {
      LinkedStaysLinear(t, id, Strip(content), category, tier, confidence, source, now);
      LinkedGrows(t, id, Strip(content), category, tier, confidence, source, now);
    }
  }

  lemma LinkedGrows(t: Table, id: nat, content: string, category: Option<string>, tier: Tier,
                    confidence: real, source: Source, now: real)
    requires t.nextId !in t.rows && id in t.rows
    ensures var t' := Linked(t, id, content, category, tier, confidence, source, now);
            && TableGrows(t, t')
            && (forall k :: k in t'.rows ==> t'.rows[k].confidence == if k in t.rows then t.rows[k].confidence else confidence)
  {
  }

  lemma InsertKeeps(t: Table, content: string, category: Option<string>, tier: Tier,
                    confidence: real, source: Source, now: real)
    requires Sound(t) && 0.0 <= confidence <= 1.0
    ensures var t' := Inserted(t, content, category, tier, confidence, source, now);
            Sound(t') && TableGrows(t, t')
  {
  }

  lemma AddKeeps(t: Table, content: string, category: Option<string>, tier: Tier, confidence: real,
                 source: Source, now: real, t': Table, id: Option<nat>)
    requires Sound(t) && 0.0 <= confidence <= 1.0
    requires Adds(t, content, category, tier, confidence, source, now, t', id)
    ensures Sound(t') && TableGrows(t, t')
  {
    if Strip(content) != "" {
      if exists k :: k in t.rows && Says(t.rows[k], Strip(content)) {
        RowwiseKeeps(t, t');
      } else {
        InsertKeeps(t, Strip(content), category, tier, confidence, source, now);
      }
    }
  }

  lemma OthersAreRowwise(t: Table, op: Op, t': Table)
    requires Step(t, op, t') && !op.Add? && !op.Supersede?
    ensures Rowwise(t, t')
  {
    match op
    case Touch(_, _) => SweepsAreRowwise(t, op, t');
    case Promote(_, _) => SweepsAreRowwise(t, op, t');
    case Decay(_, _) => SweepsAreRowwise(t, op, t');
    case _ =>
  }

  lemma SweepsAreRowwise(t: Table, op: Op, t': Table)
    requires Step(t, op, t') && (op.Touch? || op.Promote? || op.Decay?)
    ensures Rowwise(t, t')
  {
  }

  lemma StepKeeps(t: Table, op: Op, t': Table)
    requires Sound(t) && Sane(op) && Step(t, op, t')
    ensures Sound(t') && TableGrows(t, t')
  {
    match op
    case Add(content, category, tier, confidence, source, now) =>
      var id :| Adds(t, content, category, tier, confidence, source, now, t', id);
      AddKeeps(t, content, category, tier, confidence, source, now, t', id);
    case Supersede(id, content, category, tier, confidence, source, now) =>
      SupersedeKeeps(t, id, content, category, tier, confidence, source, now);
    case _ =>
      OthersAreRowwise(t, op, t');
      RowwiseKeeps(t, t');
  }

  /** A run of the store: the tables it goes through, one operation at a time. */
  ghost predicate Run(tables: seq<Table>, ops: seq<Op>) {
    && |tables| == |ops| + 1 && tables[0] == EMPTY
    && forall k :: 0 <= k < |ops| ==> Sane(ops[k]) && Step(tables[k], ops[k], tables[k + 1])
  }

  lemma {:induction false} RunSound(tables: seq<Table>, ops: seq<Op>, k: nat)
    requires Run(tables, ops) && k <= |ops|
    ensures Sound(tables[k])
  {
    if k > 0 {
      RunSound(tables, ops, k - 1);
      StepKeeps(tables[k - 1], ops[k - 1], tables[k]);
    }
  }

  /** Every reachable table is sound: links ascend without sharing, confidence stays in range. */
  lemma ReachableIsSound(tables: seq<Table>, ops: seq<Op>)
    requires Run(tables, ops)
    ensures forall k :: 0 <= k < |tables| ==> Sound(tables[k])
  {
    forall k | 0 <= k < |tables| ensures Sound(tables[k]) {
      RunSound(tables, ops, k);
    }
  }

  /** Between any two moments of a run no row is lost, demoted, less used or less believed. */
  lemma {:induction false} NothingFalls(tables: seq<Table>, ops: seq<Op>, i: nat, j: nat)
    requires Run(tables, ops) && i <= j <= |ops|
    ensures TableGrows(tables[i], tables[j])
    decreases j - i
  {
    if i < j {
      NothingFalls(tables, ops, i, j - 1);
      RunSound(tables, ops, j - 1);
      StepKeeps(tables[j - 1], ops[j - 1], tables[j]);
    }
  }

  /** No sweep and no new fact makes a durable one inactive: it takes a request that names it. */
  lemma DurableLeavesOnlyByChoice(t: Table, op: Op, t': Table, id: nat)
    requires Linear(t) && Step(t, op, t') && id in t.rows && t.rows[id].status == Active && t.rows[id].tier == Durable
    ensures id in t'.rows
    ensures t'.rows[id].status != Active ==> (op.Supersede? || op.Forget?) && op.id == id
    ensures op.Decay? ==> t'.rows[id] == t.rows[id]
  {
    match op
    case Add(content, category, tier, confidence, source, now) =>
      var added :| Adds(t, content, category, tier, confidence, source, now, t', added);
      AddLeavesActive(t, content, category, tier, confidence, source, now, t', added, id);
    case Supersede(was, content, category, tier, confidence, source, now) =>
      CorrectionLeavesOthers(t, was, content, category, tier, confidence, source, now, id);
    case _ => SweepsLeaveDurable(t, op, t', id);
  }

  lemma AddLeavesActive(t: Table, content: string, category: Option<string>, tier: Tier, confidence: real,
                        source: Source, now: real, t': Table, added: Option<nat>, id: nat)
    requires Linear(t) && Adds(t, content, category, tier, confidence, source, now, t', added)
    requires id in t.rows && t.rows[id].status == Active
    ensures id in t'.rows && t'.rows[id].status == Active
  {
  }

  lemma CorrectionLeavesOthers(t: Table, was: nat, content: string, category: Option<string>, tier: Tier, confidence: real,
                               source: Source, now: real, id: nat)
    requires Linear(t) && id in t.rows
    ensures var t' := Corrected(t, was, content, category, tier, confidence, source, now);
      id in t'.rows && (id != was ==> t'.rows[id] == t.rows[id])
  {
  }

  lemma SweepsLeaveDurable(t: Table, op: Op, t': Table, id: nat)
    requires Step(t, op, t') && !op.Add? && !op.Supersede?
    requires id in t.rows && t.rows[id].status == Active && t.rows[id].tier == Durable
    ensures id in t'.rows
    ensures t'.rows[id].status != Active ==> op.Forget? && op.id == id
    ensures op.Decay? ==> t'.rows[id] == t.rows[id]
  {
  }

  // ---- The two sweeps ----

  /** What the order of the sweeps decides: kept if promoted first, forgotten if decayed first. */
  predicate OnTheEdge(f: Fact, ttl: Lifetimes, now: real) {
    f.status == Active && f.tier == Short && f.useCount == 1 && 0.0 < ttl.short && Stale(f, now - ttl.short)
  }

  lemma FactSweepsCommuteIff(f: Fact, minUses: int, ttl: Lifetimes, now: real)
    ensures PromotedFact(DecayedFact(f, ttl, now), minUses, now) == DecayedFact(PromotedFact(f, minUses, now), ttl, now)
            <==> !(minUses == 1 && OnTheEdge(f, ttl, now))
  {
  }

  /** Decay and promote commute on a table unless one use suffices and some row hangs on it. */
  lemma SweepsCommuteIff(t: Table, minUses: int, ttl: Lifetimes, now: real)
    ensures Promoted(Decayed(t, ttl, now), minUses, now) == Decayed(Promoted(t, minUses, now), ttl, now)
            <==> !(minUses == 1 && exists id :: id in t.rows && OnTheEdge(t.rows[id], ttl, now))
  {
    var pd, dp := Promoted(Decayed(t, ttl, now), minUses, now), Decayed(Promoted(t, minUses, now), ttl, now);
    forall id | id in t.rows
      ensures pd.rows[id] == dp.rows[id] <==> !(minUses == 1 && OnTheEdge(t.rows[id], ttl, now))
    {
      FactSweepsCommuteIff(t.rows[id], minUses, ttl, now);
    }
    assert pd.rows.Keys == t.rows.Keys == dp.rows.Keys;
    if forall id :: id in t.rows ==> pd.rows[id] == dp.rows[id] {
      assert pd.rows == dp.rows;
    }
  }

  /** Running a sweep again at the same instant changes nothing. */
  lemma SweepsAreIdempotent(t: Table, minUses: int, ttl: Lifetimes, now: real)
    ensures Promoted(Promoted(t, minUses, now), minUses, now) == Promoted(t, minUses, now)
    ensures Decayed(Decayed(t, ttl, now), ttl, now) == Decayed(t, ttl, now)
  {
    assert Promoted(Promoted(t, minUses, now), minUses, now).rows == Promoted(t, minUses, now).rows;
    assert Decayed(Decayed(t, ttl, now), ttl, now).rows == Decayed(t, ttl, now).rows;
  }

  // ---- A chain longer than `lineage` looks ----

  /** The first `n` of `n + 1` versions, each replaced by the next. */
  ghost predicate Versions(t: Table, n: nat) {
    && t.nextId == n + 2 && (forall id :: id in t.rows <==> 1 <= id <= n + 1)
    && (forall id :: 1 <= id <= n ==> t.rows[id].supersededBy == Some(id + 1))
    && t.rows[n + 1].supersededBy == None
  }

  function Revision(content: string, was: nat, now: real): Op {
    Supersede(was, content, None, Durable, 1.0, Explicit, now)
  }

  /** One fact, told and then put right `n` times. */
  lemma {:induction false} Revised(content: string, n: nat, now: real) returns (tables: seq<Table>, ops: seq<Op>)
    requires Strip(content) != ""
    ensures Run(tables, ops) && |ops| == n + 1 && Versions(tables[n + 1], n)
  {
    if n == 0 {
      var told := Inserted(EMPTY, Strip(content), None, Durable, 1.0, Explicit, now);
      ops, tables := [Add(content, None, Durable, 1.0, Explicit, now)], [EMPTY, told];
      assert Adds(EMPTY, content, None, Durable, 1.0, Explicit, now, told, Some(1));
    } else {
      tables, ops := Revised(content, n - 1, now);
      var t, op := tables[n], Revision(content, n, now);
      var t' := Corrected(t, n, content, None, Durable, 1.0, Explicit, now);
      OneMoreVersion(t, n, Strip(content), now);
      tables, ops := RunOn(tables, ops, op, t');
    }
  }

  lemma OneMoreVersion(t: Table, n: nat, content: string, now: real)
    requires 0 < n && Versions(t, n - 1)
    ensures n in t.rows && Versions(Linked(t, n, content, None, Durable, 1.0, Explicit, now), n)
  {
  }

  lemma RunOn(tables: seq<Table>, ops: seq<Op>, op: Op, t: Table) returns (tables': seq<Table>, ops': seq<Op>)
    requires Run(tables, ops) && Sane(op) && Step(tables[|ops|], op, t)
    ensures Run(tables', ops') && |ops'| == |ops| + 1 && tables'[|ops'|] == t
  {
    tables', ops' := tables + [t], ops + [op];
    forall k | 0 <= k < |ops'| ensures Sane(ops'[k]) && Step(tables'[k], ops'[k], tables'[k + 1]) {
      if k < |ops| {
        assert Step(tables[k], ops[k], tables[k + 1]);
      }
    }
  }

  lemma VersionsPath(t: Table, n: nat) returns (path: seq<nat>)
    requires Versions(t, n)
    ensures |path| == n + 1 && IsPath(t.rows, path)
  {
    path := seq(n + 1, i => i + 1);
    assert forall k :: 0 <= k <= n ==> path[k] == k + 1;
  }

  /** For every limit there is a run after which the newest version of a fact is missing from its own lineage. */
  lemma LateVersionIsMissing(content: string, limit: nat, now: real) returns (tables: seq<Table>, ops: seq<Op>, path: seq<nat>)
    requires Strip(content) != ""
    ensures Run(tables, ops) && |path| == limit + 1 && IsPath(tables[|ops|].rows, path)
    ensures path[limit] !in Excerpt(path, limit, limit)
  {
    tables, ops := Revised(content, limit, now);
    path := VersionsPath(tables[|ops|], limit);
    RunSound(tables, ops, |ops|);
    LineageShowsAskedIff(tables[|ops|], path, limit, limit);
  }
}
