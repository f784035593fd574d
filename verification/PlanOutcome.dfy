/**
 What a consolidation plan does to one fact, exactly: which facts `_consolidate` of
 `app/maintenance.py` retires, for every plan, batch, cap and store.
 */
module PlanOutcome {
  import opened Collections
  import opened Consolidation
  import opened FactStore
  import opened Text
  import opened Wrappers

  // ---- The merges, read as one list of blows ----

  /** What one entry of a `drop` list comes to: nothing, the end of the pass, or a fact to forget. */
  datatype Blow = Miss | Halt | Hit(id: nat)

  function BlowOf(batch: Batch, keep: nat, drop: Handle): Blow
    requires keep in batch
  {
    if drop == Unhashable then Halt else if MayDrop(batch, keep, drop) then Hit(drop.n) else Miss
  }

  function DropBlows(batch: Batch, keep: nat, drops: seq<Handle>): seq<Blow>
    requires keep in batch
  {
    if drops == [] then [] else [BlowOf(batch, keep, drops[0])] + DropBlows(batch, keep, drops[1..])
  }

  function MergeBlows(batch: Batch, m: Merge): seq<Blow> {
    if m.Merge? && m.keep == Unhashable then [Halt]
    else if m == NotAMerge || !m.keep.Id? || m.keep.n !in batch then []
    else DropBlows(batch, m.keep.n, m.drop)
  }

  function Blows(batch: Batch, merges: seq<Merge>): seq<Blow> {
    if merges == [] then [] else MergeBlows(batch, merges[0]) + Blows(batch, merges[1..])
  }

  /** The blows before the first that ends the pass. */
  function UpToHalt(bs: seq<Blow>): seq<Blow> {
    if bs == [] || bs[0] == Halt then [] else [bs[0]] + UpToHalt(bs[1..])
  }

  /** The active facts among those that are hit. */
  function Struck(active: set<nat>, bs: seq<Blow>): set<nat> {
    set x | x in active && Hit(x) in bs
  }

  // ---- Taking the blows in order, under the cap ----

  datatype Field = Field(active: set<nat>, room: int, halted: bool)

  function TakeOne(f: Field, b: Blow): Field {
    match b
    case Miss => f
    case Halt => f.(halted := true)
    case Hit(x) => if x in f.active then f.(active := f.active - {x}, room := f.room - 1) else f
  }

  function Take(f: Field, bs: seq<Blow>): Field
    decreases |bs|
  {
    if bs == [] || f.halted || f.room <= 0 then f else Take(TakeOne(f, bs[0]), bs[1..])
  }

  function FieldOf(p: Pass, cap: int): Field { Field(ActiveIds(p.t), cap - p.changes, p.raised) }

  lemma {:induction false} TakeAppend(f: Field, a: seq<Blow>, b: seq<Blow>)
    ensures Take(f, a + b) == Take(Take(f, a), b)
    decreases |a|
  {
    if a == [] {
      assert a + b == b;
    } else if f.halted || f.room <= 0 {
    } else {
      assert (a + b)[1..] == a[1..] + b;
      TakeAppend(TakeOne(f, a[0]), a[1..], b);
    }
  }

  lemma DropIsBlow(p: Pass, batch: Batch, keep: nat, drop: Handle, cap: int, now: real)
    requires keep in batch
    ensures FieldOf(AfterDrop(p, batch, keep, drop, now), cap) == TakeOne(FieldOf(p, cap), BlowOf(batch, keep, drop))
  {
    if drop != Unhashable && MayDrop(batch, keep, drop) && drop.n in p.t.rows && p.t.rows[drop.n].status == Active {
      ForgotOne(p.t, drop.n, now);
    }
  }

  lemma {:induction false} DropsAreBlows(p: Pass, batch: Batch, keep: nat, drops: seq<Handle>, cap: int, now: real)
    requires keep in batch
    ensures FieldOf(AfterDrops(p, batch, keep, drops, cap, now), cap) == Take(FieldOf(p, cap), DropBlows(batch, keep, drops))
    decreases |drops|
  {
    if drops != [] && !Stopped(p, cap) {
      DropIsBlow(p, batch, keep, drops[0], cap, now);
      DropsAreBlows(AfterDrop(p, batch, keep, drops[0], now), batch, keep, drops[1..], cap, now);
      assert DropBlows(batch, keep, drops)[1..] == DropBlows(batch, keep, drops[1..]);
    }
  }

  lemma MergeIsBlows(p: Pass, batch: Batch, m: Merge, cap: int, now: real)
    requires !Stopped(p, cap)
    ensures FieldOf(AfterMerge(p, batch, m, cap, now), cap) == Take(FieldOf(p, cap), MergeBlows(batch, m))
  {
    if m.Merge? && m.keep == Unhashable {
      assert [Halt][1..] == [];
    } else if m.Merge? && m.keep.Id? && m.keep.n in batch {
      var q := p.(t := Reworded(p.t, batch, m, now));
      assert ActiveIds(q.t) == ActiveIds(p.t);
      DropsAreBlows(q, batch, m.keep.n, m.drop, cap, now);
    }
  }

  lemma {:induction false} MergesAreBlows(p: Pass, batch: Batch, merges: seq<Merge>, cap: int, now: real)
    ensures FieldOf(AfterMerges(p, batch, merges, cap, now), cap) == Take(FieldOf(p, cap), Blows(batch, merges))
    decreases |merges|
  {
    if merges != [] && !Stopped(p, cap) {
      MergeIsBlows(p, batch, merges[0], cap, now);
      MergesAreBlows(AfterMerge(p, batch, merges[0], cap, now), batch, merges[1..], cap, now);
      TakeAppend(FieldOf(p, cap), MergeBlows(batch, merges[0]), Blows(batch, merges[1..]));
    }
  }

  // ---- Which facts fall ----

  /** `x` is hit while fewer than `room` other facts have been hit before it. */
  ghost predicate FallsWithin(active: set<nat>, room: int, bs: seq<Blow>, x: nat) {
    exists i :: 0 <= i < |bs| && bs[i] == Hit(x) && |Struck(active, bs[..i])| < room
  }

  lemma StruckFirst(active: set<nat>, b: Blow, rest: seq<Blow>, i: nat)
    requires i <= |rest| && b != Halt
    ensures ([b] + rest)[..i + 1] == [b] + rest[..i]
    ensures b.Hit? && b.id in active ==> |Struck(active, [b] + rest[..i])| == |Struck(active - {b.id}, rest[..i])| + 1
    ensures !(b.Hit? && b.id in active) ==> Struck(active, [b] + rest[..i]) == Struck(active, rest[..i])
  {
    if b.Hit? && b.id in active {
      assert Struck(active, [b] + rest[..i]) == Struck(active - {b.id}, rest[..i]) + {b.id};
    }
  }

  lemma FallsLater(f: Field, b: Blow, rest: seq<Blow>, x: nat)
    requires f.room > 0 && b != Halt && b != Hit(x)
    ensures FallsWithin(f.active, f.room, [b] + rest, x)
       <==> FallsWithin(TakeOne(f, b).active, TakeOne(f, b).room, rest, x)
  {
    var bs, g := [b] + rest, TakeOne(f, b);
    if FallsWithin(f.active, f.room, bs, x) {
      var i :| 0 <= i < |bs| && bs[i] == Hit(x) && |Struck(f.active, bs[..i])| < f.room;
      StruckFirst(f.active, b, rest, i - 1);
      assert rest[i - 1] == Hit(x) && |Struck(g.active, rest[..i - 1])| < g.room;
    }
    if FallsWithin(g.active, g.room, rest, x) {
      var i :| 0 <= i < |rest| && rest[i] == Hit(x) && |Struck(g.active, rest[..i])| < g.room;
      StruckFirst(f.active, b, rest, i);
      assert bs[i + 1] == Hit(x) && |Struck(f.active, bs[..i + 1])| < f.room;
    }
  }

  lemma {:induction false} TakenIff(f: Field, bs: seq<Blow>, x: nat)
    requires x in f.active && !f.halted
    ensures x !in Take(f, bs).active <==> FallsWithin(f.active, f.room, UpToHalt(bs), x)
    decreases |bs|
  {
    if bs == [] || f.room <= 0 || bs[0] == Halt {
    } else {
      var rest := UpToHalt(bs[1..]);
      if bs[0] == Hit(x) {
        assert UpToHalt(bs)[0] == Hit(x) && Struck(f.active, UpToHalt(bs)[..0]) == {};
        StaysDown(TakeOne(f, bs[0]), bs[1..], x);
      } else {
        TakenIff(TakeOne(f, bs[0]), bs[1..], x);
        FallsLater(f, bs[0], rest, x);
      }
    }
  }

  lemma {:induction false} StaysDown(f: Field, bs: seq<Blow>, x: nat)
    requires x !in f.active
    ensures x !in Take(f, bs).active
    decreases |bs|
  {
    if bs != [] && !f.halted && f.room > 0 {
      StaysDown(TakeOne(f, bs[0]), bs[1..], x);
    }
  }

  /** How much room the blows leave, and whether the pass was ended by one of them. */
  lemma {:induction false} RoomLeft(f: Field, bs: seq<Blow>)
    requires f.room >= 0 && !f.halted
    ensures var n := |Struck(f.active, UpToHalt(bs))|;
      && Take(f, bs).room == (if n < f.room then f.room - n else 0)
      && (Take(f, bs).halted <==> Halt in bs && n < f.room)
    decreases |bs|
  {
    if bs == [] || f.room == 0 {
    } else if bs[0] == Halt {
      assert Struck(f.active, []) == {};
    } else {
      var rest := UpToHalt(bs[1..]);
      RoomLeft(TakeOne(f, bs[0]), bs[1..]);
      StruckFirst(f.active, bs[0], rest, |rest|);
      assert rest[..|rest|] == rest;
      assert bs == [bs[0]] + bs[1..];
    }
  }

  /**
   An active fact is forgotten by the merges exactly if one of them names it, before any that
   cannot be read, while fewer facts than the cap leaves room for have been named before it.
   */
  lemma MergesForgetIff(p: Pass, batch: Batch, merges: seq<Merge>, cap: int, now: real, x: nat)
    requires x in ActiveIds(p.t) && !p.raised
    ensures x !in ActiveIds(AfterMerges(p, batch, merges, cap, now).t)
       <==> FallsWithin(ActiveIds(p.t), cap - p.changes, UpToHalt(Blows(batch, merges)), x)
  {
    MergesAreBlows(p, batch, merges, cap, now);
    TakenIff(FieldOf(p, cap), Blows(batch, merges), x);
  }

  // ---- The corrections ----

  /** How many of the corrections, up to one that cannot be read, are carried out if there is room. */
  function Tries(batch: Batch, cs: seq<Correction>): nat {
    if cs == [] then 0 else (if Corrects(batch, cs[0]) then 1 else 0) + Tries(batch, cs[1..])
  }

  function Readable(cs: seq<Correction>): seq<Correction> {
    if cs == [] || (cs[0].Correction? && cs[0].was == Unhashable) then [] else [cs[0]] + Readable(cs[1..])
  }

  ghost predicate CorrectedWithin(batch: Batch, room: int, cs: seq<Correction>, x: nat) {
    exists j :: 0 <= j < |cs| && Corrects(batch, cs[j]) && cs[j].was == Id(x) && Tries(batch, cs[..j]) < room
  }

  /** `x` is a row of this status, in a table that holds the whole batch. */
  ghost predicate Stands(t: Table, batch: Batch, x: nat) {
    Linear(t) && batch.Keys <= t.rows.Keys && x in t.rows
  }

  lemma CorrectionStep(p: Pass, batch: Batch, c: Correction, now: real, x: nat)
    requires Stands(p.t, batch, x)
    ensures var q := AfterCorrection(p, batch, c, now);
      && Stands(q.t, batch, x)
      && q.raised == (p.raised || (c.Correction? && c.was == Unhashable))
      && q.changes == p.changes + (if Corrects(batch, c) then 1 else 0)
      && q.t.rows[x].status == (if Corrects(batch, c) && c.was == Id(x) then Superseded else p.t.rows[x].status)
  {
    if Corrects(batch, c) {
      var was, content := c.was.n, Strip(c.content);
      assert was in batch.Keys;
      LinkedStaysLinear(p.t, was, content, None, batch[was].tier, batch[was].confidence, Consolidated, now);
      LinkedRows(p.t, was, content, batch[was].tier, batch[was].confidence, now);
    }
  }

  lemma CorrectedLater(batch: Batch, room: int, c: Correction, rest: seq<Correction>, x: nat)
    requires room > 0 && !(Corrects(batch, c) && c.was == Id(x))
    ensures CorrectedWithin(batch, room, [c] + rest, x)
       <==> CorrectedWithin(batch, if Corrects(batch, c) then room - 1 else room, rest, x)
  {
    var cs := [c] + rest;
    forall j | 0 < j < |cs| ensures Tries(batch, cs[..j]) == (if Corrects(batch, c) then 1 else 0) + Tries(batch, rest[..j - 1]) {
      assert cs[..j] == [c] + rest[..j - 1];
      assert cs[..j][1..] == rest[..j - 1];
    }
    if CorrectedWithin(batch, room, cs, x) {
      var j :| 0 <= j < |cs| && Corrects(batch, cs[j]) && cs[j].was == Id(x) && Tries(batch, cs[..j]) < room;
      assert rest[j - 1] == cs[j];
    }
    if j :| 0 <= j < |rest| && Corrects(batch, rest[j]) && rest[j].was == Id(x)
            && Tries(batch, rest[..j]) < (if Corrects(batch, c) then room - 1 else room) {
      assert cs[j + 1] == rest[j];
    }
  }

  lemma {:induction false} CorrectionsSupersedeIff(p: Pass, batch: Batch, cs: seq<Correction>, cap: int, now: real, x: nat)
    requires Stands(p.t, batch, x) && !p.raised
    ensures var q := AfterCorrections(p, batch, cs, cap, now);
      && Stands(q.t, batch, x)
      && q.t.rows[x].status == (if CorrectedWithin(batch, cap - p.changes, Readable(cs), x) then Superseded else p.t.rows[x].status)
    decreases |cs|
  {
    if cs == [] || Stopped(p, cap) {
    } else if cs[0].Correction? && cs[0].was == Unhashable {
    } else {
      var c, q := cs[0], AfterCorrection(p, batch, cs[0], now);
      CorrectionStep(p, batch, c, now, x);
      CorrectionsSupersedeIff(q, batch, cs[1..], cap, now, x);
      if Corrects(batch, c) && c.was == Id(x) {
        assert Readable(cs)[0] == c && Tries(batch, Readable(cs)[..0]) == 0;
      } else {
        CorrectedLater(batch, cap - p.changes, c, Readable(cs[1..]), x);
      }
    }
  }

  // ---- The whole plan ----

  function Least(a: nat, b: nat): nat { if a < b then a else b }

  function Room(cap: int): nat { if cap < 0 then 0 else cap }

  /** The facts the merges forget, and the room they leave for corrections. */
  ghost predicate Forgets(t: Table, batch: Batch, merges: seq<Merge>, cap: int, x: nat) {
    FallsWithin(ActiveIds(t), Room(cap), UpToHalt(Blows(batch, merges)), x)
  }

  function RoomAfter(t: Table, batch: Batch, merges: seq<Merge>, cap: int): nat {
    Room(cap) - Least(|Struck(ActiveIds(t), UpToHalt(Blows(batch, merges)))|, Room(cap))
  }

  /** No merge in reach is one that cannot be read. */
  ghost predicate GetsThrough(t: Table, batch: Batch, merges: seq<Merge>, cap: int) {
    Halt in Blows(batch, merges) ==> RoomAfter(t, batch, merges, cap) == 0
  }

  ghost predicate Retires(t: Table, batch: Batch, plan: Plan, cap: int, x: nat) {
    && 2 <= |batch| && plan.Plan? && plan.merges.Items?
    && (|| Forgets(t, batch, plan.merges.items, cap, x)
        || (&& plan.corrections.Items? && GetsThrough(t, batch, plan.merges.items, cap)
            && CorrectedWithin(batch, RoomAfter(t, batch, plan.merges.items, cap), Readable(plan.corrections.items), x)))
  }

  lemma {:induction false} MergesKeepStanding(p: Pass, batch: Batch, merges: seq<Merge>, cap: int, now: real, x: nat)
    requires Stands(p.t, batch, x)
    ensures Stands(AfterMerges(p, batch, merges, cap, now).t, batch, x)
    decreases |merges|
  {
    if merges != [] && !Stopped(p, cap) {
      if merges[0].Merge? && merges[0].keep.Id? && merges[0].keep.n in batch {
        SameLinks(p.t, Reworded(p.t, batch, merges[0], now));
        DropsKeepStanding(p.(t := Reworded(p.t, batch, merges[0], now)), batch, merges[0].keep.n, merges[0].drop, cap, now, x);
      }
      MergesKeepStanding(AfterMerge(p, batch, merges[0], cap, now), batch, merges[1..], cap, now, x);
    }
  }

  lemma {:induction false} DropsKeepStanding(p: Pass, batch: Batch, keep: nat, drops: seq<Handle>, cap: int, now: real, x: nat)
    requires Stands(p.t, batch, x) && keep in batch
    ensures Stands(AfterDrops(p, batch, keep, drops, cap, now).t, batch, x)
    decreases |drops|
  {
    if drops != [] && !Stopped(p, cap) {
      SameLinks(p.t, AfterDrop(p, batch, keep, drops[0], now).t);
      DropsKeepStanding(AfterDrop(p, batch, keep, drops[0], now), batch, keep, drops[1..], cap, now, x);
    }
  }

  /**
   What a plan does to an active fact, keepers included: it stays active unless a merge names it
   while there is room, or a correction of it is reached while there is room.
   */
  lemma FactIsRetiredIff(t: Table, batch: Batch, plan: Plan, cap: int, now: real, x: nat)
    requires Stands(t, batch, x) && t.rows[x].status == Active
    ensures x in AfterPlan(t, batch, plan, cap, now).t.rows
    ensures AfterPlan(t, batch, plan, cap, now).t.rows[x].status != Active <==> Retires(t, batch, plan, cap, x)
  {
    if 2 <= |batch| && plan.Plan? && plan.merges.Items? {
      var start, merges := FRESH.(t := t), plan.merges.items;
      var p := AfterMerges(start, batch, merges, cap, now);
      MergesKeepStanding(start, batch, merges, cap, now, x);
      MergesForgetIff(start, batch, merges, cap, now, x);
      MergesLeave(t, batch, merges, cap, now);
      NoRoomNoFall(ActiveIds(t), cap, UpToHalt(Blows(batch, merges)), x);
      if !p.raised && plan.corrections.Items? {
        CorrectionsSupersedeIff(p, batch, plan.corrections.items, cap, now, x);
        NoRoomNoCorrection(batch, cap - p.changes, RoomAfter(t, batch, merges, cap), Readable(plan.corrections.items), x);
      }
    }
  }

  lemma MergesLeave(t: Table, batch: Batch, merges: seq<Merge>, cap: int, now: real)
    ensures var p := AfterMerges(FRESH.(t := t), batch, merges, cap, now);
      && (0 <= cap ==> cap - p.changes == RoomAfter(t, batch, merges, cap))
      && (cap < 0 ==> p.changes == 0)
      && (p.raised <==> !GetsThrough(t, batch, merges, cap))
  {
    var start := FRESH.(t := t);
    MergesAreBlows(start, batch, merges, cap, now);
    if 0 <= cap {
      RoomLeft(FieldOf(start, cap), Blows(batch, merges));
    }
  }

  lemma NoRoomNoFall(active: set<nat>, cap: int, bs: seq<Blow>, x: nat)
    ensures FallsWithin(active, cap, bs, x) <==> FallsWithin(active, Room(cap), bs, x)
  {
  }

  lemma NoRoomNoCorrection(batch: Batch, a: int, b: int, cs: seq<Correction>, x: nat)
    requires a == b || (a <= 0 && b <= 0)
    ensures CorrectedWithin(batch, a, cs, x) <==> CorrectedWithin(batch, b, cs, x)
  {
  }

  // ---- What it takes for a keeper to survive ----

  /** Some correction in the plan is of `x` and has something to say. */
  ghost predicate CorrectsFact(batch: Batch, cs: seq<Correction>, x: nat) {
    x in batch && exists c :: c in cs && c.Correction? && c.was == Id(x) && Strip(c.content) != ""
  }

  /** The merge lists `x` for another fact of the batch, which is explicit if `x` is. */
  ghost predicate DroppedBy(batch: Batch, m: Merge, x: nat) {
    && m.Merge? && m.keep.Id? && m.keep.n in batch && x in batch && x != m.keep.n && Id(x) in m.drop
    && (batch[x].source == Explicit ==> batch[m.keep.n].source == Explicit)
  }

  ghost predicate Dropped(batch: Batch, merges: seq<Merge>, x: nat) {
    exists m :: m in merges && DroppedBy(batch, m, x)
  }

  /** The plan is readable throughout, and the cap has room for all of it. */
  ghost predicate Fits(batch: Batch, merges: seq<Merge>, cs: seq<Correction>, cap: int) {
    && |Blows(batch, merges)| + |cs| <= cap && Halt !in Blows(batch, merges)
    && forall c :: c in cs && c.Correction? ==> c.was != Unhashable
  }

  /** With room for everything and every entry readable, a fact stays active exactly if nothing in the plan names it. */
  lemma KeeperSurvivesIff(t: Table, batch: Batch, merges: seq<Merge>, cs: seq<Correction>, cap: int, now: real, x: nat)
    requires Stands(t, batch, x) && t.rows[x].status == Active && 2 <= |batch| && Fits(batch, merges, cs, cap)
    ensures var t' := AfterPlan(t, batch, Plan(Items(merges), Items(cs)), cap, now).t;
      && x in t'.rows
      && (t'.rows[x].status == Active <==> !Dropped(batch, merges, x) && !CorrectsFact(batch, cs, x))
  {
    assert forall m :: m in merges ==> (Names(batch, m, x) <==> DroppedBy(batch, m, x));
    FactIsRetiredIff(t, batch, Plan(Items(merges), Items(cs)), cap, now, x);
    RoomForAll(ActiveIds(t), Blows(batch, merges), cap, x);
    NamedIffHit(batch, merges, x);
    NoHalt(Blows(batch, merges));
    FewerStruck(ActiveIds(t), Blows(batch, merges));
    AllReadable(cs);
    RoomForCorrections(batch, RoomAfter(t, batch, merges, cap), cs, x);
  }

  lemma {:induction false} AllReadable(cs: seq<Correction>)
    requires forall c :: c in cs && c.Correction? ==> c.was != Unhashable
    ensures Readable(cs) == cs
  {
    if cs != [] {
      AllReadable(cs[1..]);
      assert cs == [cs[0]] + cs[1..];
    }
  }

  lemma {:induction false} FewTries(batch: Batch, cs: seq<Correction>)
    ensures Tries(batch, cs) <= |cs|
  {
    if cs != [] {
      FewTries(batch, cs[1..]);
    }
  }

  lemma RoomForCorrections(batch: Batch, room: int, cs: seq<Correction>, x: nat)
    requires |cs| <= room
    ensures CorrectedWithin(batch, room, cs, x) <==> CorrectsFact(batch, cs, x)
  {
    if CorrectsFact(batch, cs, x) {
      var c :| c in cs && Corrects(batch, c) && c.was == Id(x);
      var j :| 0 <= j < |cs| && cs[j] == c;
      FewTries(batch, cs[..j]);
    }
  }

  lemma RoomForAll(active: set<nat>, bs: seq<Blow>, cap: int, x: nat)
    requires |bs| <= cap && Halt !in bs
    ensures FallsWithin(active, Room(cap), UpToHalt(bs), x) <==> Hit(x) in bs
  {
    NoHalt(bs);
    if Hit(x) in bs {
      var i :| 0 <= i < |bs| && bs[i] == Hit(x);
      FewerStruck(active, bs[..i]);
    }
  }

  lemma {:induction false} NoHalt(bs: seq<Blow>)
    requires Halt !in bs
    ensures UpToHalt(bs) == bs
  {
    if bs != [] {
      NoHalt(bs[1..]);
    }
  }

  lemma {:induction false} FewerStruck(active: set<nat>, bs: seq<Blow>)
    ensures |Struck(active, bs)| <= |bs|
  {
    if bs != [] {
      FewerStruck(active, bs[1..]);
      assert bs == [bs[0]] + bs[1..];
      if bs[0].Hit? {
        OneLarger(Struck(active, bs), Struck(active, bs[1..]), bs[0].id);
      } else {
        assert Struck(active, bs) == Struck(active, bs[1..]);
      }
    }
  }

  lemma {:induction false} DropHits(batch: Batch, keep: nat, drops: seq<Handle>, x: nat)
    requires keep in batch
    ensures Hit(x) in DropBlows(batch, keep, drops) <==> Id(x) in drops && MayDrop(batch, keep, Id(x))
  {
    if drops != [] {
      DropHits(batch, keep, drops[1..], x);
      assert drops == [drops[0]] + drops[1..];
    }
  }

  lemma {:induction false} NamedIffHit(batch: Batch, merges: seq<Merge>, x: nat)
    ensures Hit(x) in Blows(batch, merges) <==> exists m :: m in merges && Names(batch, m, x)
  {
    if merges != [] {
      NamedIffHit(batch, merges[1..], x);
      assert merges == [merges[0]] + merges[1..];
      var m := merges[0];
      if m.Merge? && m.keep.Id? && m.keep.n in batch {
        DropHits(batch, m.keep.n, m.drop, x);
      }
      assert Hit(x) in MergeBlows(batch, m) <==> Names(batch, m, x);
    }
  }

  /** So two merges that name each other's keeper forget both, and with them both wordings. */
  lemma MutualMergesLoseBoth(t: Table, batch: Batch, merges: seq<Merge>, cs: seq<Correction>, cap: int, now: real, a: Merge, b: Merge)
    requires 2 <= |batch| && Fits(batch, merges, cs, cap)
    requires a in merges && b in merges && a.Merge? && b.Merge? && a.keep.Id? && b.keep.Id?
    requires Names(batch, a, b.keep.n) && Names(batch, b, a.keep.n)
    requires Stands(t, batch, a.keep.n) && Stands(t, batch, b.keep.n)
    requires t.rows[a.keep.n].status == t.rows[b.keep.n].status == Active
    ensures var t' := AfterPlan(t, batch, Plan(Items(merges), Items(cs)), cap, now).t;
      && a.keep.n in t'.rows && t'.rows[a.keep.n].status != Active
      && b.keep.n in t'.rows && t'.rows[b.keep.n].status != Active
  {
    KeeperSurvivesIff(t, batch, merges, cs, cap, now, a.keep.n);
    KeeperSurvivesIff(t, batch, merges, cs, cap, now, b.keep.n);
  }

  /**
   And nothing about its source protects a fact from being superseded: an explicit one goes like any
   other. What takes its place has the correction's words, its category, and the tier and confidence
   it had when the model was shown it.
   */
  lemma AnyFactMayBeSuperseded(t: Table, batch: Batch, cap: int, now: real, x: nat, content: string)
    requires Stands(t, batch, x) && t.rows[x].status == Active && x in batch && 2 <= |batch| && 0 < cap && Strip(content) != ""
    ensures var t' := AfterPlan(t, batch, Plan(Items([]), Items([Correction(Id(x), content)])), cap, now).t;
      && x in t'.rows && t'.rows[x].status == Superseded && t'.rows[x].source == t.rows[x].source
      && t'.rows[x].supersededBy == Some(t.nextId) && t.nextId in t'.rows
      && t'.rows[t.nextId] == Fact(Strip(content), t.rows[x].category, batch[x].tier, batch[x].confidence, Active, 0,
                                   Consolidated, now, now, None, None)
  {
    var start, c := FRESH.(t := t), Correction(Id(x), content);
    assert [c][1..] == [];
    CorrectionStep(start, batch, c, now, x);
    LinkedRows(t, x, Strip(content), batch[x].tier, batch[x].confidence, now);
    assert AfterCorrections(start, batch, [c], cap, now) == AfterCorrection(start, batch, c, now) by {
      assert AfterCorrections(AfterCorrection(start, batch, c, now), batch, [], cap, now) == AfterCorrection(start, batch, c, now);
    }
  }
}
