/**
 The facts table of `app/memory/store.py`: tiers, confidence, soft deletion and supersede
 links. Times are real-valued instants; ids are handed out in increasing order and never
 reused, and no row is ever removed.
 */
module FactStore {
  import opened Text
  import opened Wrappers

  datatype Tier = Session | Short | Durable | Other(name: string)

  datatype Status = Active | Superseded | Forgotten

  datatype Source = Extracted | Explicit | Consolidated

  datatype Fact = Fact(
    content: string, category: Option<string>, tier: Tier, confidence: real, status: Status,
    useCount: nat, source: Source, createdAt: real, updatedAt: real,
    lastUsedAt: Option<real>, supersededBy: Option<nat>)

  datatype Table = Table(rows: map<nat, Fact>, nextId: nat)

  const EMPTY := Table(map[], 1)

  /** Session facts are the most fleeting; a tier nobody knows ranks below them all. */
  function TierRank(t: Tier): int {
    match t
    case Session => 0
    case Short => 1
    case Durable => 2
    case Other(_) => -1
  }

  /** SQLite's `COLLATE NOCASE`, which folds the ASCII letters only. */
  function FoldCase(s: string): (t: string)
    ensures |t| == |s|
  {
    seq(|s|, i requires 0 <= i < |s| => if 'A' <= s[i] <= 'Z' then s[i] - 'A' + 'a' else s[i])
  }

  predicate Says(f: Fact, content: string) {
    f.status == Active && FoldCase(f.content) == FoldCase(content)
  }

  // ---- What each statement does to the table ----

  function Reinforced(f: Fact, tier: Tier, confidence: real, now: real): Fact {
    var raised := (if confidence > f.confidence then confidence else f.confidence) + 0.05;
    f.(useCount := f.useCount + 1,
       confidence := if raised < 1.0 then raised else 1.0,
       tier := if TierRank(tier) > TierRank(f.tier) then tier else f.tier,
       updatedAt := now)
  }

  function Inserted(t: Table, content: string, category: Option<string>, tier: Tier,
                    confidence: real, source: Source, now: real): Table {
    var f := Fact(content, category, tier, confidence, Active, 0, source, now, now, None, None);
    Table(t.rows[t.nextId := f], t.nextId + 1)
  }

  function Touched(t: Table, ids: seq<nat>, now: real): Table {
    t.(rows := map id | id in t.rows ::
      if id in ids then t.rows[id].(useCount := t.rows[id].useCount + 1, lastUsedAt := Some(now)) else t.rows[id])
  }

  function Linked(t: Table, was: nat, content: string, category: Option<string>, tier: Tier,
                  confidence: real, source: Source, now: real): Table
    requires was in t.rows
  {
    var category' := if category == None then t.rows[was].category else category;
    var t' := Inserted(t, content, category', tier, confidence, source, now);
    t'.(rows := t'.rows[was := t.rows[was].(status := Superseded, supersededBy := Some(t.nextId), updatedAt := now)])
  }

  function WithStatus(t: Table, id: nat, status: Status, now: real): Table
    requires id in t.rows
  {
    t.(rows := t.rows[id := t.rows[id].(status := status, updatedAt := now)])
  }

  function WithContent(t: Table, id: nat, content: string, now: real): Table
    requires id in t.rows
  {
    t.(rows := t.rows[id := t.rows[id].(content := content, updatedAt := now)])
  }

  function PromotedFact(f: Fact, minUses: int, now: real): Fact {
    if 0 < minUses && f.status == Active && f.tier == Short && f.useCount >= minUses
    then f.(tier := Durable, updatedAt := now) else f
  }

  function Promoted(t: Table, minUses: int, now: real): Table {
    t.(rows := map id | id in t.rows :: PromotedFact(t.rows[id], minUses, now))
  }

  /** How long fact tiers live unused; zero or less means for ever. */
  datatype Lifetimes = Lifetimes(session: real, short: real)

  /** Last used, or else created, before `cutoff`. */
  predicate Stale(f: Fact, cutoff: real) {
    (if f.lastUsedAt.Some? then f.lastUsedAt.value else f.createdAt) < cutoff
  }

  predicate Expired(f: Fact, ttl: Lifetimes, now: real) {
    && f.status == Active
    && (|| (0.0 < ttl.session && f.tier == Session && Stale(f, now - ttl.session))
        || (0.0 < ttl.short && f.tier == Short && f.useCount < 2 && Stale(f, now - ttl.short)))
  }

  function DecayedFact(f: Fact, ttl: Lifetimes, now: real): Fact {
    if Expired(f, ttl, now) then f.(status := Forgotten, updatedAt := now) else f
  }

  function Decayed(t: Table, ttl: Lifetimes, now: real): Table {
    t.(rows := map id | id in t.rows :: DecayedFact(t.rows[id], ttl, now))
  }

  // ---- The same as whole operations, refusals included ----

  /** `add_fact`: which of several rows saying the same is reinforced is left to SQLite. */
  ghost predicate Adds(t: Table, content: string, category: Option<string>, tier: Tier, confidence: real,
                       source: Source, now: real, t': Table, id: Option<nat>) {
    var text := Strip(content);
    if text == "" then id == None && t' == t
    else if exists k :: k in t.rows && Says(t.rows[k], text) then
      && id.Some? && id.value in t.rows && Says(t.rows[id.value], text)
      && t' == t.(rows := t.rows[id.value := Reinforced(t.rows[id.value], tier, confidence, now)])
    else id == Some(t.nextId) && t' == Inserted(t, text, category, tier, confidence, source, now)
  }

  function Corrected(t: Table, id: nat, content: string, category: Option<string>, tier: Tier,
                     confidence: real, source: Source, now: real): Table {
    if Strip(content) == "" || id !in t.rows then t
    else Linked(t, id, Strip(content), category, tier, confidence, source, now)
  }

  function Forgot(t: Table, id: nat, now: real): Table {
    if id in t.rows && t.rows[id].status == Active then WithStatus(t, id, Forgotten, now) else t
  }

  function Restored(t: Table, id: nat, now: real): Table {
    if id in t.rows then WithStatus(t, id, Active, now) else t
  }

  function Rewritten(t: Table, id: nat, content: string, now: real): Table {
    if id in t.rows && Strip(content) != "" then WithContent(t, id, Strip(content), now) else t
  }

  // ---- The store ----

  function TierChanges(before: map<nat, Fact>, after: map<nat, Fact>): set<nat> {
    set id | id in before && id in after && after[id].tier != before[id].tier
  }

  function StatusChanges(before: map<nat, Fact>, after: map<nat, Fact>): set<nat> {
    set id | id in before && id in after && after[id].status != before[id].status
  }

  /** The active short-term facts that have earned their place. */
  function Due(rows: map<nat, Fact>, minUses: int): set<nat> {
    set id | id in rows && rows[id].status == Active && rows[id].tier == Short && rows[id].useCount >= minUses
  }

  lemma PromotedRows(t: Table, minUses: int, now: real)
    ensures minUses <= 0 ==> Promoted(t, minUses, now) == t && TierChanges(t.rows, t.rows) == {}
    ensures 0 < minUses ==> TierChanges(t.rows, Promoted(t, minUses, now).rows) == Due(t.rows, minUses)
  {
    if minUses <= 0 {
      assert Promoted(t, minUses, now).rows == t.rows;
    }
  }

  class MemoryStore {
    var rows: map<nat, Fact>
    var nextId: nat

    function Contents(): Table
      reads this
    {
      Table(rows, nextId)
    }

    ghost predicate Valid()
      reads this
    {
      Linear(Contents())
    }

    constructor ()
      ensures Contents() == EMPTY && Valid()
    {
      rows, nextId := map[], 1;
    }

    /** Strengthens an active fact that already says this, or else inserts it. */
    method AddFact(content: string, category: Option<string>, tier: Tier, confidence: real,
                   source: Source, now: real) returns (id: Option<nat>)
      requires Valid()
      modifies this
      ensures Valid()
      ensures Adds(old(Contents()), content, category, tier, confidence, source, now, Contents(), id)
    {
      var text := Strip(content);
      if text == "" {
        return None;
      }
      if existing :| existing in rows && Says(rows[existing], text) {
        rows := rows[existing := Reinforced(rows[existing], tier, confidence, now)];
        SameLinks(old(Contents()), Contents());
        return Some(existing);
      }
      InsertedStaysLinear(Contents(), text, category, tier, confidence, source, now);
      rows := rows[nextId := Fact(text, category, tier, confidence, Active, 0, source, now, now, None, None)];
      id := Some(nextId);
      nextId := nextId + 1;
    }

    method TouchFacts(ids: seq<nat>, now: real)
      requires Valid()
      modifies this
      ensures Valid() && Contents() == Touched(old(Contents()), ids, now) && rows.Keys == old(rows).Keys
      ensures forall id :: id in rows ==>
                rows[id] == if id in ids then old(rows)[id].(useCount := old(rows)[id].useCount + 1, lastUsedAt := Some(now))
                            else old(rows)[id]
    {
      rows := Touched(Contents(), ids, now).rows;
      SameLinks(old(Contents()), Contents());
    }

    /** `update_fact(status="active")`: the undo of a soft delete. */
    method Restore(id: nat, now: real) returns (changed: bool)
      requires Valid()
      modifies this
      ensures Valid() && changed == (id in old(rows))
      ensures Contents() == Restored(old(Contents()), id, now)
      ensures rows == if changed then old(rows)[id := old(rows)[id].(status := Active, updatedAt := now)] else old(rows)
    {
      changed := id in rows;
      if changed {
        rows := rows[id := rows[id].(status := Active, updatedAt := now)];
      }
    }

    /** `update_fact(content=...)`, where a blank content changes nothing. */
    method Rewrite(id: nat, content: string, now: real) returns (changed: bool)
      requires Valid()
      modifies this
      ensures Valid() && changed == (id in old(rows) && Strip(content) != "")
      ensures Contents() == Rewritten(old(Contents()), id, content, now)
      ensures rows == if changed then old(rows)[id := old(rows)[id].(content := Strip(content), updatedAt := now)] else old(rows)
    {
      changed := id in rows && Strip(content) != "";
      if changed {
        rows := rows[id := rows[id].(content := Strip(content), updatedAt := now)];
      }
    }

    method SupersedeFact(oldId: nat, content: string, category: Option<string>, tier: Tier,
                         confidence: real, source: Source, now: real) returns (id: Option<nat>)
      requires Valid()
      modifies this
      ensures Valid()
      ensures Contents() == Corrected(old(Contents()), oldId, content, category, tier, confidence, source, now)
      ensures id == if Strip(content) == "" || oldId !in old(rows) then None else Some(old(nextId))
    {
      var text := Strip(content);
      if text == "" || oldId !in rows {
        return None;
      }
      LinkedStaysLinear(Contents(), oldId, text, category, tier, confidence, source, now);
      var category' := if category == None then rows[oldId].category else category;
      var newId := nextId;
      rows := rows[newId := Fact(text, category', tier, confidence, Active, 0, source, now, now, None, None)];
      nextId := nextId + 1;
      rows := rows[oldId := rows[oldId].(status := Superseded, supersededBy := Some(newId), updatedAt := now)];
      return Some(newId);
    }

    method ForgetFact(id: nat, now: real) returns (was: Option<Fact>)
      requires Valid()
      modifies this
      ensures Valid()
      ensures Contents() == Forgot(old(Contents()), id, now)
      ensures rows == if id in old(rows) && old(rows)[id].status == Active
                      then old(rows)[id := old(rows)[id].(status := Forgotten, updatedAt := now)] else old(rows)
      ensures was == if id in old(rows) && old(rows)[id].status == Active then Some(old(rows)[id]) else None
    {
      if id !in rows || rows[id].status != Active {
        return None;
      }
      was := Some(rows[id]);
      rows := rows[id := rows[id].(status := Forgotten, updatedAt := now)];
    }

    method PromoteFacts(minUses: int, now: real) returns (changed: nat)
      requires Valid()
      modifies this
      ensures Valid() && Contents() == Promoted(old(Contents()), minUses, now)
      ensures changed == |TierChanges(old(rows), rows)| && rows.Keys == old(rows).Keys
      ensures forall id :: id in rows ==>
                var f := old(rows)[id];
                rows[id] == if 0 < minUses <= f.useCount && f.status == Active && f.tier == Short
                            then f.(tier := Durable, updatedAt := now) else f
    {
      PromotedRows(Contents(), minUses, now);
      if minUses <= 0 {
        return 0;
      }
      var hit := Due(rows, minUses);
      rows := map id | id in rows :: PromotedFact(rows[id], minUses, now);
      SameLinks(old(Contents()), Contents());
      changed := |hit|;
    }

    method DecayFacts(ttl: Lifetimes, now: real) returns (changed: nat)
      requires Valid()
      modifies this
      ensures Valid() && Contents() == Decayed(old(Contents()), ttl, now)
      ensures changed == |StatusChanges(old(rows), rows)| && rows.Keys == old(rows).Keys
      // Idle is measured from the last use, or from the start where there was none.
      ensures forall id :: id in rows ==>
                var f := old(rows)[id];
                var idle := now - if f.lastUsedAt == None then f.createdAt else f.lastUsedAt.value;
                rows[id] == if (&& f.status == Active
                                && (|| (f.tier == Session && 0.0 < ttl.session < idle)
                                    || (f.tier == Short && f.useCount < 2 && 0.0 < ttl.short < idle)))
                            then f.(status := Forgotten, updatedAt := now) else f
    {
      var stale := StaleIds(ttl, now);
      Forget(stale, now);
      assert rows == Decayed(old(Contents()), ttl, now).rows;
      SameLinks(old(Contents()), Contents());
      assert stale == StatusChanges(old(rows), rows);
      changed := |stale|;
    }

    method StaleIds(ttl: Lifetimes, now: real) returns (stale: set<nat>)
      ensures forall id :: id in stale <==> id in rows && Expired(rows[id], ttl, now)
    {
      stale := {};
      if 0.0 < ttl.session {
        stale := set id | id in rows && rows[id].status == Active && rows[id].tier == Session && Stale(rows[id], now - ttl.session);
      }
      if 0.0 < ttl.short {
        stale := stale + set id | id in rows && rows[id].status == Active && rows[id].tier == Short
                                  && rows[id].useCount < 2 && Stale(rows[id], now - ttl.short);
      }
    }

    method Forget(ids: set<nat>, now: real)
      modifies this`rows
      ensures rows == map id | id in old(rows) ::
                if id in ids then old(rows)[id].(status := Forgotten, updatedAt := now) else old(rows)[id]
    {
      rows := map id | id in rows :: if id in ids then rows[id].(status := Forgotten, updatedAt := now) else rows[id];
    }

    /**
     At most `limit` steps back along the links and then forward, collecting: an excerpt of the one
     path through the fact.
     */
    method Lineage(id: nat, limit: int) returns (chain: seq<nat>)
      requires Valid()
      ensures id !in rows ==> chain == []
      ensures forall path, p: nat :: IsPath(rows, path) && p < |path| && path[p] == id
                ==> chain == Excerpt(path, p, limit)
    {
      if id !in rows {
        forall path, p: nat | IsPath(rows, path) && p < |path| ensures path[p] != id {}
        return [];
      }
      ghost var path, p := PathThrough(Contents(), id);
      PathIsAscending(Contents(), path);
      var root := Ancestor(id, limit, path, p);
      ghost var start := if limit <= 0 then p else if p <= limit then 0 else p - limit;
      ghost var stop := if limit <= 0 then p else if start + limit < |path| then start + limit else |path|;
      chain := Descendants(root, limit, path, start, stop);
      assert chain == Excerpt(path, p, limit);
      forall other, q: nat | IsPath(rows, other) && q < |other| && other[q] == id
        ensures chain == Excerpt(other, q, limit)
      {
        PathIsUnique(Contents(), path, p, other, q);
      }
    }

    method Ancestor(id: nat, limit: int, ghost path: seq<nat>, ghost p: nat) returns (current: nat)
      requires Valid() && IsPath(rows, path) && p < |path| && path[p] == id
      ensures current == path[if limit <= 0 then p else if p <= limit then 0 else p - limit]
    {
      PathIsAscending(Contents(), path);
      var seen: set<nat> := {};
      current := id;
      ghost var at := p;
      var steps := 0;
      while steps < limit
        invariant 0 <= steps && (steps <= limit || steps == 0)
        invariant at == p - steps >= 0 && current == path[at]
        invariant forall x :: x in seen ==> path[at] <= x
        decreases limit - steps
      {
        LinkInto(Contents(), path, at);
        if prev :| prev in rows && rows[prev].supersededBy == Some(current) {
          PredecessorOnPath(Contents(), path, at, prev);
          if prev in seen {
            break;
          }
          seen := seen + {prev};
          current := prev;
          at := at - 1;
          steps := steps + 1;
        } else {
          break;
        }
      }
    }

    method Descendants(root: nat, limit: int, ghost path: seq<nat>, ghost start: nat, ghost stop: nat)
        returns (chain: seq<nat>)
      requires IsPath(rows, path) && start < |path| && path[start] == root
      requires forall i, j :: 0 <= i < j < |path| ==> path[i] < path[j]
      requires start <= stop <= |path| && (stop < |path| ==> stop - start >= limit)
      requires start < stop ==> stop - start <= limit
      ensures chain == path[start..stop]
    {
      chain := [];
      var seen: set<nat> := {};
      var next := Some(root);
      ghost var at := start;
      while next != None && next.value !in seen && |chain| < limit
        invariant start <= at <= stop && chain == path[start..at]
        invariant next == if at < |path| then Some(path[at]) else None
        invariant forall x, k :: x in seen && at <= k < |path| ==> x < path[k]
        decreases |path| - at
      {
        assert at < stop;
        assert path[start..at + 1] == path[start..at] + [path[at]];
        seen := seen + {next.value};
        chain := chain + [next.value];
        next := rows[next.value].supersededBy;
        at := at + 1;
      }
    }
  }

  // ---- The fact graph is a set of disjoint ascending paths ----

  /** Every link goes to a later row, and no two rows link to the same one. */
  ghost predicate Linear(t: Table) {
    && (forall id :: id in t.rows ==> id < t.nextId)
    && (forall id :: id in t.rows && t.rows[id].supersededBy.Some?
          ==> id < t.rows[id].supersededBy.value && t.rows[id].supersededBy.value in t.rows)
    && (forall a, b :: (a in t.rows && b in t.rows && t.rows[a].supersededBy.Some?
                        && t.rows[a].supersededBy == t.rows[b].supersededBy) ==> a == b)
  }

  lemma LinkedStaysLinear(t: Table, was: nat, content: string, category: Option<string>, tier: Tier,
                          confidence: real, source: Source, now: real)
    requires Linear(t) && was in t.rows
    ensures Linear(Linked(t, was, content, category, tier, confidence, source, now))
  {
    var category' := if category == None then t.rows[was].category else category;
    InsertedStaysLinear(t, content, category', tier, confidence, source, now);
    NewestIsLinked(Inserted(t, content, category', tier, confidence, source, now), was, t.nextId, now);
  }

  /** Pointing a row at the newest one, which nothing points at yet. */
  lemma NewestIsLinked(t: Table, was: nat, newest: nat, now: real)
    requires Linear(t) && was in t.rows && newest in t.rows && was < newest
    requires forall id :: id in t.rows ==> t.rows[id].supersededBy != Some(newest)
    ensures Linear(t.(rows := t.rows[was := t.rows[was].(status := Superseded, supersededBy := Some(newest), updatedAt := now)]))
  {
  }

  /** Links are all that matters to it. */
  lemma InsertedStaysLinear(t: Table, content: string, category: Option<string>, tier: Tier,
                            confidence: real, source: Source, now: real)
    requires Linear(t)
    ensures Linear(Inserted(t, content, category, tier, confidence, source, now))
  {
  }

  lemma SameLinks(t: Table, t': Table)
    requires Linear(t) && t'.nextId == t.nextId && t'.rows.Keys == t.rows.Keys
    requires forall id :: id in t.rows ==> t'.rows[id].supersededBy == t.rows[id].supersededBy
    ensures Linear(t')
  {
  }

  /** A maximal chain of replacements, from a fact nothing points at to one not replaced. */
  ghost predicate IsPath(rows: map<nat, Fact>, path: seq<nat>) {
    && path != []
    && (forall k :: 0 <= k < |path| ==> path[k] in rows)
    && (forall k :: 0 <= k < |path| - 1 ==> rows[path[k]].supersededBy == Some(path[k + 1]))
    && rows[path[|path| - 1]].supersededBy == None
    && (forall id :: id in rows ==> rows[id].supersededBy != Some(path[0]))
  }

  /** The rows `lineage` shows of a path when asked about its `p`-th one. */
  function Excerpt(path: seq<nat>, p: nat, limit: int): seq<nat>
    requires p < |path|
  {
    if limit <= 0 then []
    else
      var start := if p <= limit then 0 else p - limit;
      path[start..if start + limit < |path| then start + limit else |path|]
  }

  lemma {:induction false} PathIsAscending(t: Table, path: seq<nat>)
    requires Linear(t) && IsPath(t.rows, path)
    ensures forall i, j :: 0 <= i < j < |path| ==> path[i] < path[j]
  {
    forall j | 0 <= j < |path| ensures forall i :: 0 <= i < j ==> path[i] < path[j] {
      Below(t, path, j);
    }
  }

  lemma {:induction false} Below(t: Table, path: seq<nat>, j: nat)
    requires Linear(t) && IsPath(t.rows, path) && j < |path|
    ensures forall i :: 0 <= i < j ==> path[i] < path[j]
  {
    if j > 0 {
      Below(t, path, j - 1);
      assert t.rows[path[j - 1]].supersededBy == Some(path[j]);
    }
  }

  lemma PredecessorOnPath(t: Table, path: seq<nat>, at: nat, prev: nat)
    requires Linear(t) && IsPath(t.rows, path) && at < |path|
    requires prev in t.rows && t.rows[prev].supersededBy == Some(path[at])
    ensures 0 < at && prev == path[at - 1] && prev < path[at]
  {
    LinkInto(t, path, at);
  }

  lemma LinkInto(t: Table, path: seq<nat>, at: nat)
    requires IsPath(t.rows, path) && at < |path|
    ensures 0 < at ==> path[at - 1] in t.rows && t.rows[path[at - 1]].supersededBy == Some(path[at])
  {
    if 0 < at {
      assert t.rows[path[at - 1]].supersededBy == Some(path[(at - 1) + 1]);
    }
  }

  /** The links from `id` on, down to a fact that was never replaced. */
  lemma {:induction false} Tail(t: Table, id: nat) returns (path: seq<nat>)
    requires Linear(t) && id in t.rows
    ensures Onward(t.rows, path) && path[0] == id
    decreases t.nextId - id
  {
    if t.rows[id].supersededBy == None {
      path := [id];
    } else {
      var rest := Tail(t, t.rows[id].supersededBy.value);
      Preceded(t.rows, id, rest);
      path := [id] + rest;
    }
  }

  /** Every fact lies on a path. */
  lemma PathThrough(t: Table, id: nat) returns (path: seq<nat>, p: nat)
    requires Linear(t) && id in t.rows
    ensures IsPath(t.rows, path) && p < |path| && path[p] == id
  {
    path := Tail(t, id);
    p := 0;
    while exists prev :: prev in t.rows && t.rows[prev].supersededBy == Some(path[0])
      invariant p < |path| && path[p] == id && Onward(t.rows, path)
      decreases path[0]
    {
      var prev :| prev in t.rows && t.rows[prev].supersededBy == Some(path[0]);
      Preceded(t.rows, prev, path);
      path := [prev] + path;
      p := p + 1;
    }
  }

  /** A path that runs on to its newest version. */
  ghost predicate Onward(rows: map<nat, Fact>, path: seq<nat>) {
    && path != []
    && (forall k :: 0 <= k < |path| ==> path[k] in rows)
    && (forall k :: 0 <= k < |path| - 1 ==> rows[path[k]].supersededBy == Some(path[k + 1]))
    && rows[path[|path| - 1]].supersededBy == None
  }

  lemma Preceded(rows: map<nat, Fact>, prev: nat, path: seq<nat>)
    requires Onward(rows, path) && prev in rows && rows[prev].supersededBy == Some(path[0])
    ensures Onward(rows, [prev] + path)
  {
  }

  lemma {:induction false} SamePrefix(t: Table, a: seq<nat>, i: nat, b: seq<nat>, j: nat)
    requires Linear(t) && IsPath(t.rows, a) && IsPath(t.rows, b)
    requires i < |a| && j < |b| && a[i] == b[j]
    ensures i == j && a[..i] == b[..j]
  {
    assert 0 < i ==> t.rows[a[i - 1]].supersededBy == Some(a[i]);
    assert 0 < j ==> t.rows[b[j - 1]].supersededBy == Some(b[j]);
    if 0 < i && 0 < j {
      SamePrefix(t, a, i - 1, b, j - 1);
      assert a[..i] == a[..i - 1] + [a[i - 1]] && b[..j] == b[..j - 1] + [b[j - 1]];
    }
  }

  lemma {:induction false} SameSuffix(t: Table, a: seq<nat>, b: seq<nat>, i: nat)
    requires Linear(t) && IsPath(t.rows, a) && IsPath(t.rows, b)
    requires i < |a| && i < |b| && a[i] == b[i]
    ensures a[i..] == b[i..]
    decreases |a| - i
  {
    assert i + 1 < |a| ==> t.rows[a[i]].supersededBy == Some(a[i + 1]);
    assert i + 1 < |b| ==> t.rows[b[i]].supersededBy == Some(b[i + 1]);
    if i + 1 < |a| {
      SameSuffix(t, a, b, i + 1);
    }
    assert a[i..] == [a[i]] + a[i + 1..] && b[i..] == [b[i]] + b[i + 1..];
  }

  /** Two paths that share a fact are the same path: the fact graph is a disjoint set of them. */
  lemma PathIsUnique(t: Table, a: seq<nat>, i: nat, b: seq<nat>, j: nat)
    requires Linear(t) && IsPath(t.rows, a) && IsPath(t.rows, b)
    requires i < |a| && j < |b| && a[i] == b[j]
    ensures a == b && i == j
  {
    SamePrefix(t, a, i, b, j);
    SameSuffix(t, a, b, i);
    assert a == a[..i] + a[i..] && b == b[..j] + b[j..];
  }

  /** The whole story comes back from every link of exactly those chains that fit the limit. */
  lemma LineageIsWholeIff(path: seq<nat>, p: nat, limit: nat)
    requires p < |path|
    ensures Excerpt(path, p, limit) == path <==> |path| <= limit
  {
  }

  /** The fact asked about is in its own lineage exactly when it is among the first `limit`. */
  lemma LineageShowsAskedIff(t: Table, path: seq<nat>, p: nat, limit: nat)
    requires Linear(t) && IsPath(t.rows, path) && p < |path|
    ensures path[p] in Excerpt(path, p, limit) <==> p < limit
  {
    PathIsAscending(t, path);
    if 0 < p < limit || (p == 0 && 0 < limit) {
      assert Excerpt(path, p, limit)[p] == path[p];
    }
  }

  // ---- Telling a fact, and putting it right, in full ----

  /**
   A correction carries the new words and all it is given, with the old category where it has none of
   its own; the old row keeps everything but its standing; and no other row notices.
   */
  lemma CorrectedIs(t: Table, was: nat, content: string, category: Option<string>, tier: Tier, confidence: real, source: Source, now: real)
    requires Linear(t) && was in t.rows && Strip(content) != ""
    ensures var t' := Corrected(t, was, content, category, tier, confidence, source, now);
      && t'.nextId == t.nextId + 1 && t'.rows.Keys == t.rows.Keys + {t.nextId}
      && (forall k :: k in t.rows && k != was ==> t'.rows[k] == t.rows[k])
      && t'.rows[was] == t.rows[was].(status := Superseded, supersededBy := Some(t.nextId), updatedAt := now)
      && t'.rows[t.nextId] == Fact(Strip(content), if category == None then t.rows[was].category else category,
                                   tier, confidence, Active, 0, source, now, now, None, None)
  {
  }

  /** Two texts say the same if they differ at most in the case of ASCII letters. */
  lemma SaysIff(f: Fact, content: string)
    ensures Says(f, content) <==> (
      && f.status == Active && |f.content| == |content|
      && forall i :: 0 <= i < |content| ==> (
           || f.content[i] == content[i]
           || ('A' <= content[i] <= 'Z' && f.content[i] as int == content[i] as int + 32)
           || ('a' <= content[i] <= 'z' && f.content[i] as int == content[i] as int - 32)))
  {
    if |f.content| == |content| {
      forall i | 0 <= i < |content|
        ensures FoldCase(f.content)[i] == FoldCase(content)[i] <==>
          || f.content[i] == content[i]
          || ('A' <= content[i] <= 'Z' && f.content[i] as int == content[i] as int + 32)
          || ('a' <= content[i] <= 'z' && f.content[i] as int == content[i] as int - 32)
      {
        FoldedAt(f.content, i);
        FoldedAt(content, i);
      }
      assert FoldCase(f.content) == FoldCase(content) <==> forall i :: 0 <= i < |content| ==> FoldCase(f.content)[i] == FoldCase(content)[i];
    }
  }

  lemma FoldedAt(s: string, i: nat)
    requires i < |s|
    ensures FoldCase(s)[i] as int == s[i] as int + if 'A' <= s[i] <= 'Z' then 32 else 0
  {
  }

  /**
   Told again, a fact gains a use and a little confidence, up to certainty; it rises to the tier
   it is told in if that is the more lasting one, and never falls; nothing else about it changes.
   */
  lemma ToldAgain(t: Table, content: string, category: Option<string>, tier: Tier, confidence: real, source: Source,
                  now: real, t': Table, id: Option<nat>)
    requires Adds(t, content, category, tier, confidence, source, now, t', id)
    requires Strip(content) != "" && exists k :: k in t.rows && Says(t.rows[k], Strip(content))
    ensures id.Some? && id.value in t.rows && Says(t.rows[id.value], Strip(content))
    ensures t'.nextId == t.nextId && t'.rows.Keys == t.rows.Keys && forall k :: k in t.rows && k != id.value ==> t'.rows[k] == t.rows[k]
    ensures var f, f' := t.rows[id.value], t'.rows[id.value];
      && f'.useCount == f.useCount + 1 && f'.updatedAt == now
      && (f.confidence <= 0.95 && confidence <= 0.95 ==>
            f'.confidence >= f.confidence + 0.05 && f'.confidence >= confidence + 0.05
            && (f'.confidence == f.confidence + 0.05 || f'.confidence == confidence + 0.05))
      && (f.confidence > 0.95 || confidence > 0.95 ==> f'.confidence == 1.0)
      && (tier == Durable ==> f'.tier == Durable)
      && (tier == Short ==> f'.tier == if f.tier == Durable then Durable else Short)
      && (tier == Session ==> f'.tier == if f.tier.Other? then Session else f.tier)
      && (tier.Other? ==> f'.tier == f.tier)
      && f' == f.(useCount := f'.useCount, confidence := f'.confidence, tier := f'.tier, updatedAt := now)
  {
  }

  /** Told for the first time, or again after it was forgotten or corrected, it is a new row; and blank text is nothing. */
  lemma ToldFirst(t: Table, content: string, category: Option<string>, tier: Tier, confidence: real, source: Source,
                  now: real, t': Table, id: Option<nat>)
    requires Adds(t, content, category, tier, confidence, source, now, t', id)
    requires forall k :: k in t.rows ==> !Says(t.rows[k], Strip(content))
    ensures Strip(content) == "" ==> id == None && t' == t
    ensures Strip(content) != "" ==> id == Some(t.nextId) && t'.nextId == t.nextId + 1
    ensures Strip(content) != "" ==>
      t'.rows == t.rows[t.nextId := Fact(Strip(content), category, tier, confidence, Active, 0, source, now, now, None, None)]
  {
  }
}
