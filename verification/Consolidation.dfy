/**
 `_consolidate` of `app/maintenance.py`: applying a model's plan for tidying memory. The plan
 is arbitrary: nothing is assumed of it but its shape, and the shape may be wrong too.
 */
module Consolidation {
  import opened Collections
  import opened FactStore
  import opened Text
  import opened Wrappers

  /**
   What stands where an id should: a value equal to an id, one equal to none, or one (a list,
   an object) that cannot be looked up at all and ends the pass with an exception.
   */
  datatype Handle = Id(n: nat) | NotAnId | Unhashable

  /** One entry under "merge"; a `drop` that cannot be iterated reads as a single unhashable one. */
  datatype Merge = NotAMerge | Merge(keep: Handle, content: string, drop: seq<Handle>)

  /** One entry under "supersede". */
  datatype Correction = NotACorrection | Correction(was: Handle, content: string)

  datatype Listing<T> = Items(items: seq<T>) | NotIterable

  datatype Plan = Unusable | Plan(merges: Listing<Merge>, corrections: Listing<Correction>)

  /** The store part-way through a pass, with the changes counted so far. */
  datatype Pass = Pass(t: Table, changes: nat, merged: nat, superseded: nat, raised: bool)

  /** The facts the model was shown, as they were when it was shown them. */
  type Batch = map<nat, Fact>

  predicate Stopped(p: Pass, cap: int) { p.raised || p.changes >= cap }

  predicate MayDrop(batch: Batch, keep: nat, drop: Handle)
    requires keep in batch
  {
    && drop.Id? && drop.n in batch && drop.n != keep
    && !(batch[drop.n].source == Explicit && batch[keep].source != Explicit)
  }

  function AfterDrop(p: Pass, batch: Batch, keep: nat, drop: Handle, now: real): Pass
    requires keep in batch
  {
    if drop == Unhashable then p.(raised := true)
    else if MayDrop(batch, keep, drop) && drop.n in p.t.rows && p.t.rows[drop.n].status == Active
    then p.(t := Forgot(p.t, drop.n, now), changes := p.changes + 1, merged := p.merged + 1)
    else p
  }

  function AfterDrops(p: Pass, batch: Batch, keep: nat, drops: seq<Handle>, cap: int, now: real): Pass
    requires keep in batch
    decreases |drops|
  {
    if drops == [] || Stopped(p, cap) then p
    else AfterDrops(AfterDrop(p, batch, keep, drops[0], now), batch, keep, drops[1..], cap, now)
  }

  function Wording(m: Merge, kept: Fact): string
    requires m.Merge?
  {
    Strip(if m.content != "" then m.content else kept.content)
  }

  function Reworded(t: Table, batch: Batch, m: Merge, now: real): Table
    requires m.Merge? && m.keep.Id? && m.keep.n in batch
  {
    var content := Wording(m, batch[m.keep.n]);
    if content != "" && content != batch[m.keep.n].content then Rewritten(t, m.keep.n, content, now) else t
  }

  function AfterMerge(p: Pass, batch: Batch, m: Merge, cap: int, now: real): Pass {
    if m.Merge? && m.keep == Unhashable then p.(raised := true)
    else if m == NotAMerge || !m.keep.Id? || m.keep.n !in batch then p
    else AfterDrops(p.(t := Reworded(p.t, batch, m, now)), batch, m.keep.n, m.drop, cap, now)
  }

  function AfterMerges(p: Pass, batch: Batch, merges: seq<Merge>, cap: int, now: real): Pass
    decreases |merges|
  {
    if merges == [] || Stopped(p, cap) then p
    else AfterMerges(AfterMerge(p, batch, merges[0], cap, now), batch, merges[1..], cap, now)
  }

  /** A correction that can be carried out on a store holding the whole batch. */
  predicate Corrects(batch: Batch, c: Correction) {
    c.Correction? && c.was.Id? && c.was.n in batch && Strip(c.content) != ""
  }

  function AfterCorrection(p: Pass, batch: Batch, c: Correction, now: real): Pass {
    if c.Correction? && c.was == Unhashable then p.(raised := true)
    else if !Corrects(batch, c) || c.was.n !in p.t.rows then p
    else
      var was := c.was.n;
      p.(t := Corrected(p.t, was, c.content, None, batch[was].tier, batch[was].confidence, Consolidated, now),
         changes := p.changes + 1, superseded := p.superseded + 1)
  }

  function AfterCorrections(p: Pass, batch: Batch, cs: seq<Correction>, cap: int, now: real): Pass
    decreases |cs|
  {
    if cs == [] || Stopped(p, cap) then p
    else AfterCorrections(AfterCorrection(p, batch, cs[0], now), batch, cs[1..], cap, now)
  }

  const FRESH := Pass(EMPTY, 0, 0, 0, false)

  function AfterPlan(t: Table, batch: Batch, plan: Plan, cap: int, now: real): Pass {
    var start := FRESH.(t := t);
    if |batch| < 2 || plan == Unusable then start
    else if plan.merges == NotIterable then start.(raised := true)
    else
      var p := AfterMerges(start, batch, plan.merges.items, cap, now);
      if p.raised then p
      else if plan.corrections == NotIterable then p.(raised := true)
      else AfterCorrections(p, batch, plan.corrections.items, cap, now)
  }

  // ---- The pass itself ----

  class MaintenanceReport {
    var merged: nat
    var superseded: nat

    constructor ()
      ensures merged == superseded == 0
    {
      merged, superseded := 0, 0;
    }
  }

  method DropFacts(store: MemoryStore, report: MaintenanceReport, batch: Batch, keep: nat,
                   drops: seq<Handle>, start: nat, cap: int, now: real) returns (changes: nat, raised: bool)
    requires store.Valid() && keep in batch
    modifies store, report`merged
    ensures store.Valid()
    ensures Pass(store.Contents(), changes, report.merged, report.superseded, raised)
         == AfterDrops(Pass(old(store.Contents()), start, old(report.merged), report.superseded, false), batch, keep, drops, cap, now)
  {
    changes, raised := start, false;
    ghost var whole := AfterDrops(Pass(store.Contents(), start, report.merged, report.superseded, false), batch, keep, drops, cap, now);
    for n := 0 to |drops|
      invariant store.Valid() && !raised
      invariant whole == AfterDrops(Pass(store.Contents(), changes, report.merged, report.superseded, false), batch, keep, drops[n..], cap, now)
    {
      if changes >= cap {
        return;
      }
      assert drops[n..][1..] == drops[n + 1..];
      if drops[n] == Unhashable {
        return changes, true;
      }
      if !MayDrop(batch, keep, drops[n]) {
        continue;
      }
      var was := store.ForgetFact(drops[n].n, now);
      if was != None {
        report.merged := report.merged + 1;
        changes := changes + 1;
      }
    }
  }

  method ApplyMerge(store: MemoryStore, report: MaintenanceReport, batch: Batch, m: Merge,
                    start: nat, cap: int, now: real) returns (changes: nat, raised: bool)
    requires store.Valid()
    modifies store, report`merged
    ensures store.Valid()
    ensures Pass(store.Contents(), changes, report.merged, report.superseded, raised)
         == AfterMerge(Pass(old(store.Contents()), start, old(report.merged), report.superseded, false), batch, m, cap, now)
  {
    changes, raised := start, false;
    if m == NotAMerge {
      return;
    }
    if m.keep == Unhashable {
      return changes, true;
    }
    if !m.keep.Id? || m.keep.n !in batch {
      return;
    }
    var keep := m.keep.n;
    var content := Wording(m, batch[keep]);
    if content != "" && content != batch[keep].content {
      var _ := store.Rewrite(keep, content, now);
    }
    changes, raised := DropFacts(store, report, batch, keep, m.drop, changes, cap, now);
  }

  method ApplyMerges(store: MemoryStore, report: MaintenanceReport, batch: Batch, merges: seq<Merge>,
                     start: nat, cap: int, now: real) returns (changes: nat, raised: bool)
    requires store.Valid()
    modifies store, report`merged
    ensures store.Valid()
    ensures Pass(store.Contents(), changes, report.merged, report.superseded, raised)
         == AfterMerges(Pass(old(store.Contents()), start, old(report.merged), report.superseded, false), batch, merges, cap, now)
  {
    changes, raised := start, false;
    ghost var whole := AfterMerges(Pass(store.Contents(), start, report.merged, report.superseded, false), batch, merges, cap, now);
    for n := 0 to |merges|
      invariant store.Valid() && !raised
      invariant whole == AfterMerges(Pass(store.Contents(), changes, report.merged, report.superseded, false), batch, merges[n..], cap, now)
    {
      if changes >= cap {
        return;
      }
      assert merges[n..][1..] == merges[n + 1..];
      changes, raised := ApplyMerge(store, report, batch, merges[n], changes, cap, now);
      if raised {
        return;
      }
    }
  }

  method ApplyCorrections(store: MemoryStore, report: MaintenanceReport, batch: Batch, cs: seq<Correction>,
                          start: nat, cap: int, now: real) returns (changes: nat, raised: bool)
    requires store.Valid()
    modifies store, report`superseded
    ensures store.Valid()
    ensures Pass(store.Contents(), changes, report.merged, report.superseded, raised)
         == AfterCorrections(Pass(old(store.Contents()), start, report.merged, old(report.superseded), false), batch, cs, cap, now)
  {
    changes, raised := start, false;
    ghost var whole := AfterCorrections(Pass(store.Contents(), start, report.merged, report.superseded, false), batch, cs, cap, now);
    for n := 0 to |cs|
      invariant store.Valid() && !raised
      invariant whole == AfterCorrections(Pass(store.Contents(), changes, report.merged, report.superseded, false), batch, cs[n..], cap, now)
    {
      if changes >= cap {
        return;
      }
      assert cs[n..][1..] == cs[n + 1..];
      changes, raised := ApplyCorrection(store, report, batch, cs[n], changes, now);
      if raised {
        return;
      }
    }
  }

  method ApplyCorrection(store: MemoryStore, report: MaintenanceReport, batch: Batch, c: Correction, start: nat, now: real)
      returns (changes: nat, raised: bool)
    requires store.Valid()
    modifies store, report`superseded
    ensures store.Valid()
    ensures Pass(store.Contents(), changes, report.merged, report.superseded, raised)
         == AfterCorrection(Pass(old(store.Contents()), start, report.merged, old(report.superseded), false), batch, c, now)
  {
    changes, raised := start, false;
    if c == NotACorrection {
      return;
    }
    if c.was == Unhashable {
      return changes, true;
    }
    if !c.was.Id? || c.was.n !in batch || Strip(c.content) == "" {
      return;
    }
    var was := c.was.n;
    var added := store.SupersedeFact(was, c.content, None, batch[was].tier, batch[was].confidence, Consolidated, now);
    if added != None {
      report.superseded := report.superseded + 1;
      changes := changes + 1;
    }
  }

  method Consolidate(store: MemoryStore, report: MaintenanceReport, batch: Batch, plan: Plan, cap: int, now: real)
      returns (changes: nat, raised: bool)
    requires store.Valid() && report.merged == report.superseded == 0
    modifies store, report
    ensures store.Valid()
    ensures Pass(store.Contents(), changes, report.merged, report.superseded, raised)
         == AfterPlan(old(store.Contents()), batch, plan, cap, now)
  {
    changes, raised := 0, false;
    if |batch| < 2 || plan == Unusable {
      return;
    }
    if plan.merges == NotIterable {
      return changes, true;
    }
    changes, raised := ApplyMerges(store, report, batch, plan.merges.items, 0, cap, now);
    if raised {
      return;
    }
    if plan.corrections == NotIterable {
      return changes, true;
    }
    changes, raised := ApplyCorrections(store, report, batch, plan.corrections.items, changes, cap, now);
  }

  // ---- What no plan can get past ----

  function ActiveIds(t: Table): set<nat> {
    set id | id in t.rows && t.rows[id].status == Active
  }

  /** Some merge in the plan names `id` as one to drop, in favour of a fact no less explicit. */
  ghost predicate Condemned(plan: Plan, batch: Batch, id: nat) {
    plan.Plan? && plan.merges.Items? && exists m :: m in plan.merges.items && Names(batch, m, id)
  }

  predicate Names(batch: Batch, m: Merge, id: nat) {
    m.Merge? && m.keep.Id? && m.keep.n in batch && Id(id) in m.drop && MayDrop(batch, m.keep.n, Id(id))
  }

  /** Everything a pass over `t0` has promised at the point `p`. */
  ghost predicate Bounded(t0: Table, batch: Batch, plan: Plan, cap: int, p: Pass) {
    Linear(p.t) && Tallied(t0, cap, p) && Contained(t0, batch, plan, p.t)
  }

  /** The counters, and that they count at least every row that changed status and every fact lost. */
  ghost predicate Tallied(t0: Table, cap: int, p: Pass) {
    && p.changes == p.merged + p.superseded
    && p.changes <= (if cap < 0 then 0 else cap)
    && p.t.nextId == t0.nextId + p.superseded
    && |ActiveIds(t0)| <= |ActiveIds(p.t)| + p.merged
    && |StatusChanges(t0.rows, p.t.rows)| <= p.changes
  }

  ghost predicate Contained(t0: Table, batch: Batch, plan: Plan, t: Table) {
    && t0.rows.Keys <= t.rows.Keys
    && (forall id :: id in t0.rows && id !in batch ==> t.rows[id] == t0.rows[id])
    && (forall id :: id in t0.rows ==> t.rows[id].source == t0.rows[id].source)
    && (forall id :: id in t0.rows && t.rows[id].status == Forgotten && t0.rows[id].status != Forgotten
          ==> Condemned(plan, batch, id))
  }

  /** Nothing but the row at `id` changes its status. */
  ghost predicate OnlyAt(t: Table, t': Table, id: nat) {
    t.rows.Keys <= t'.rows.Keys && forall k :: k in t.rows && k != id ==> t'.rows[k].status == t.rows[k].status
  }

  lemma ChangesOne(t0: Table, t: Table, t': Table, id: nat)
    requires t0.rows.Keys <= t.rows.Keys && OnlyAt(t, t', id)
    ensures |StatusChanges(t0.rows, t'.rows)| <= |StatusChanges(t0.rows, t.rows)| + 1
  {
    assert forall k :: k in t0.rows ==> k in t.rows.Keys;
    OneLarger(StatusChanges(t0.rows, t'.rows), StatusChanges(t0.rows, t.rows), id);
  }

  lemma ForgotOne(t: Table, id: nat, now: real)
    requires id in t.rows && t.rows[id].status == Active
    ensures OnlyAt(t, Forgot(t, id, now), id)
    ensures ActiveIds(Forgot(t, id, now)) == ActiveIds(t) - {id}
    ensures |ActiveIds(Forgot(t, id, now))| == |ActiveIds(t)| - 1
  {
    assert ActiveIds(Forgot(t, id, now)) == ActiveIds(t) - {id};
  }

  lemma DropTallied(t0: Table, cap: int, p: Pass, id: nat, now: real)
    requires Tallied(t0, cap, p) && p.changes < cap && t0.rows.Keys <= p.t.rows.Keys
    requires id in p.t.rows && p.t.rows[id].status == Active
    ensures Tallied(t0, cap, p.(t := Forgot(p.t, id, now), changes := p.changes + 1, merged := p.merged + 1))
  {
    ForgotOne(p.t, id, now);
    ChangesOne(t0, p.t, Forgot(p.t, id, now), id);
  }

  lemma DropContained(t0: Table, batch: Batch, plan: Plan, t: Table, id: nat, now: real)
    requires Contained(t0, batch, plan, t) && id in batch && id in t.rows && Condemned(plan, batch, id)
    ensures Contained(t0, batch, plan, Forgot(t, id, now))
  {
  }

  lemma DropBounded(t0: Table, batch: Batch, plan: Plan, cap: int, p: Pass, keep: nat, drop: Handle, now: real)
    requires Bounded(t0, batch, plan, cap, p) && p.changes < cap && keep in batch
    requires MayDrop(batch, keep, drop) ==> Condemned(plan, batch, drop.n)
    ensures Bounded(t0, batch, plan, cap, AfterDrop(p, batch, keep, drop, now))
  {
    if drop != Unhashable && MayDrop(batch, keep, drop) && drop.n in p.t.rows && p.t.rows[drop.n].status == Active {
      SameLinks(p.t, Forgot(p.t, drop.n, now));
      DropTallied(t0, cap, p, drop.n, now);
      DropContained(t0, batch, plan, p.t, drop.n, now);
    }
  }

  lemma {:induction false} DropsBounded(t0: Table, batch: Batch, plan: Plan, cap: int, p: Pass, keep: nat,
                                        drops: seq<Handle>, now: real)
    requires Bounded(t0, batch, plan, cap, p) && keep in batch
    requires forall d :: d in drops && MayDrop(batch, keep, d) ==> Condemned(plan, batch, d.n)
    ensures Bounded(t0, batch, plan, cap, AfterDrops(p, batch, keep, drops, cap, now))
    decreases |drops|
  {
    if drops != [] && !Stopped(p, cap) {
      DropBounded(t0, batch, plan, cap, p, keep, drops[0], now);
      DropsBounded(t0, batch, plan, cap, AfterDrop(p, batch, keep, drops[0], now), keep, drops[1..], now);
    }
  }

  lemma RewriteKeepsStatus(t0: Table, t: Table, keep: nat, content: string, now: real)
    ensures ActiveIds(Rewritten(t, keep, content, now)) == ActiveIds(t)
    ensures StatusChanges(t0.rows, Rewritten(t, keep, content, now).rows) == StatusChanges(t0.rows, t.rows)
  {
  }

  lemma RewriteBounded(t0: Table, batch: Batch, plan: Plan, cap: int, p: Pass, keep: nat, content: string, now: real)
    requires Bounded(t0, batch, plan, cap, p) && keep in batch
    ensures Bounded(t0, batch, plan, cap, p.(t := Rewritten(p.t, keep, content, now)))
  {
    SameLinks(p.t, Rewritten(p.t, keep, content, now));
    RewriteKeepsStatus(t0, p.t, keep, content, now);
    RewriteContained(t0, batch, plan, p.t, keep, content, now);
  }

  lemma RewriteContained(t0: Table, batch: Batch, plan: Plan, t: Table, keep: nat, content: string, now: real)
    requires Contained(t0, batch, plan, t) && keep in batch
    ensures Contained(t0, batch, plan, Rewritten(t, keep, content, now))
  {
  }

  lemma {:induction false} MergesBounded(t0: Table, batch: Batch, plan: Plan, cap: int, p: Pass, merges: seq<Merge>, now: real)
    requires Bounded(t0, batch, plan, cap, p)
    requires plan.Plan? && plan.merges.Items? && forall m :: m in merges ==> m in plan.merges.items
    ensures Bounded(t0, batch, plan, cap, AfterMerges(p, batch, merges, cap, now))
    decreases |merges|
  {
    if merges != [] && !Stopped(p, cap) {
      MergeBounded(t0, batch, plan, cap, p, merges[0], now);
      MergesBounded(t0, batch, plan, cap, AfterMerge(p, batch, merges[0], cap, now), merges[1..], now);
    }
  }

  lemma MergeBounded(t0: Table, batch: Batch, plan: Plan, cap: int, p: Pass, m: Merge, now: real)
    requires Bounded(t0, batch, plan, cap, p) && plan.Plan? && plan.merges.Items? && m in plan.merges.items
    ensures Bounded(t0, batch, plan, cap, AfterMerge(p, batch, m, cap, now))
  {
    if m.Merge? && m.keep.Id? && m.keep.n in batch {
      RewriteBounded(t0, batch, plan, cap, p, m.keep.n, Wording(m, batch[m.keep.n]), now);
      assert p.(t := p.t) == p;
      forall d | d in m.drop && MayDrop(batch, m.keep.n, d) ensures Condemned(plan, batch, d.n) {
        assert Names(batch, m, d.n);
      }
      DropsBounded(t0, batch, plan, cap, p.(t := Reworded(p.t, batch, m, now)), m.keep.n, m.drop, now);
    }
  }

  lemma LinkedActive(t: Table, was: nat, content: string, tier: Tier, confidence: real, now: real)
    requires Linear(t) && was in t.rows
    ensures |ActiveIds(t)| <= |ActiveIds(Linked(t, was, content, None, tier, confidence, Consolidated, now))|
  {
    var t' := Linked(t, was, content, None, tier, confidence, Consolidated, now);
    assert t.nextId !in ActiveIds(t);
    assert ActiveIds(t') == ActiveIds(t) - {was} + {t.nextId};
    OneLarger(ActiveIds(t), ActiveIds(t) - {was}, was);
  }

  lemma LinkedRows(t: Table, was: nat, content: string, tier: Tier, confidence: real, now: real)
    requires Linear(t) && was in t.rows
    ensures var t' := Linked(t, was, content, None, tier, confidence, Consolidated, now);
            && t'.nextId == t.nextId + 1
            && (forall id :: id in t.rows && id != was ==> id in t'.rows && t'.rows[id] == t.rows[id])
            && was in t'.rows && t'.rows[was].source == t.rows[was].source && t'.rows[was].status == Superseded
            && t'.rows[was].content == t.rows[was].content
  {
  }

  lemma CorrectionTallied(t0: Table, batch: Batch, cap: int, p: Pass, c: Correction, now: real)
    requires Linear(p.t) && Tallied(t0, cap, p) && p.changes < cap && t0.rows.Keys <= p.t.rows.Keys
    requires Corrects(batch, c) && c.was.n in p.t.rows
    ensures Tallied(t0, cap, AfterCorrection(p, batch, c, now))
  {
    var was, content := c.was.n, Strip(c.content);
    LinkedActive(p.t, was, content, batch[was].tier, batch[was].confidence, now);
    LinkedRows(p.t, was, content, batch[was].tier, batch[was].confidence, now);
    ChangesOne(t0, p.t, AfterCorrection(p, batch, c, now).t, was);
  }

  lemma CorrectionContained(t0: Table, batch: Batch, plan: Plan, p: Pass, c: Correction, now: real)
    requires Linear(p.t) && Contained(t0, batch, plan, p.t) && Corrects(batch, c) && c.was.n in p.t.rows
    ensures Contained(t0, batch, plan, AfterCorrection(p, batch, c, now).t)
  {
    var was, content := c.was.n, Strip(c.content);
    LinkedRows(p.t, was, content, batch[was].tier, batch[was].confidence, now);
  }

  lemma CorrectionBounded(t0: Table, batch: Batch, plan: Plan, cap: int, p: Pass, c: Correction, now: real)
    requires Bounded(t0, batch, plan, cap, p) && p.changes < cap && Linear(t0)
    ensures Bounded(t0, batch, plan, cap, AfterCorrection(p, batch, c, now))
  {
    if Corrects(batch, c) && c.was.n in p.t.rows {
      var was, content := c.was.n, Strip(c.content);
      LinkedStaysLinear(p.t, was, content, None, batch[was].tier, batch[was].confidence, Consolidated, now);
      CorrectionTallied(t0, batch, cap, p, c, now);
      CorrectionContained(t0, batch, plan, p, c, now);
    }
  }

  lemma {:induction false} CorrectionsBounded(t0: Table, batch: Batch, plan: Plan, cap: int, p: Pass,
                                              cs: seq<Correction>, now: real)
    requires Bounded(t0, batch, plan, cap, p) && Linear(t0)
    ensures Bounded(t0, batch, plan, cap, AfterCorrections(p, batch, cs, cap, now))
    decreases |cs|
  {
    if cs != [] && !Stopped(p, cap) {
      CorrectionBounded(t0, batch, plan, cap, p, cs[0], now);
      CorrectionsBounded(t0, batch, plan, cap, AfterCorrection(p, batch, cs[0], now), cs[1..], now);
    }
  }

  lemma StartIsBounded(t: Table, batch: Batch, plan: Plan, cap: int)
    requires Linear(t)
    ensures Bounded(t, batch, plan, cap, FRESH.(t := t))
  {
    assert StatusChanges(t.rows, t.rows) == {};
  }

  /** Whatever the model answers, the pass stays within its bounds. */
  lemma EveryPlanIsBounded(t: Table, batch: Batch, plan: Plan, cap: int, now: real)
    requires Linear(t)
    ensures Bounded(t, batch, plan, cap, AfterPlan(t, batch, plan, cap, now))
  {
    var start := FRESH.(t := t);
    StartIsBounded(t, batch, plan, cap);
    if 2 <= |batch| && plan.Plan? && plan.merges.Items? {
      MergesBounded(t, batch, plan, cap, start, plan.merges.items, now);
      if plan.corrections.Items? {
        CorrectionsBounded(t, batch, plan, cap, AfterMerges(start, batch, plan.merges.items, cap, now), plan.corrections.items, now);
      }
    }
  }

  /** Only a merge into another explicit fact can get an explicit fact forgotten. */
  lemma ExplicitOutlivesGuesses(t: Table, batch: Batch, plan: Plan, cap: int, now: real, id: nat)
    requires Linear(t) && id in t.rows && id in batch && batch[id].source == Explicit && t.rows[id].status == Active
    requires plan.Plan? && plan.merges.Items? ==>
               forall m :: m in plan.merges.items && m.Merge? && m.keep.Id? && m.keep.n in batch && Id(id) in m.drop
                 ==> batch[m.keep.n].source != Explicit || m.keep.n == id
    ensures id in AfterPlan(t, batch, plan, cap, now).t.rows
    ensures AfterPlan(t, batch, plan, cap, now).t.rows[id].status != Forgotten
  {
    EveryPlanIsBounded(t, batch, plan, cap, now);
  }
}
