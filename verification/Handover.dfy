/**
 From a due reminder to a connection that takes it: how long a push can wait once it is in the
 outbox (`app/push.py`), whatever else is filed, acknowledged, sent or expired meanwhile.
 */
module Handover {
  import Collections
  import opened DeliveryRuns
  import opened Outbox
  import opened Reminders

  // ---- A push's place in the queue ----

  /** How many rows have to go for the one with this id to be gone, itself included; 0 if it is not there. */
  function Place(queue: Rows, id: string): (p: nat)
    ensures p <= |queue|
  {
    if queue == [] then 0
    else
      var n := |queue| - 1;
      var before := Place(queue[..n], id);
      if before > 0 then before else if queue[n].id == id then |queue| else 0
  }

  function Wait(rows: Rows, id: string): nat { Place(Queue(rows), id) }

  lemma PlaceSnoc(init: Rows, last: Row, id: string)
    ensures Place(init + [last], id)
         == if Place(init, id) > 0 then Place(init, id) else if last.id == id then |init| + 1 else 0
  {
    assert (init + [last])[..|init|] == init;
  }

  lemma {:induction false} PlacedIff(queue: Rows, id: string)
    ensures Place(queue, id) > 0 <==> exists r :: r in queue && r.id == id
  {
    if queue != [] {
      var n := |queue| - 1;
      PlacedIff(queue[..n], id);
      assert queue == queue[..n] + [queue[n]];
    }
  }

  /** A push waits exactly while it is pending. */
  lemma WaitsIff(rows: Rows, id: string)
    ensures Wait(rows, id) > 0 <==> exists r :: r in rows && r.id == id && r.status.Pending?
  {
    QueueHolds(rows);
    PlacedIff(Queue(rows), id);
  }

  lemma {:induction false} WithoutIsShorter(queue: Rows, x: string)
    ensures |Without(queue, x)| <= |queue|
  {
    if queue != [] {
      WithoutIsShorter(queue[..|queue| - 1], x);
    }
  }

  lemma {:induction false} PlaceWithout(queue: Rows, x: string, id: string)
    ensures Place(Without(queue, x), id) <= Place(queue, id)
  {
    if queue != [] {
      var init, last := queue[..|queue| - 1], queue[|queue| - 1];
      PlaceWithout(init, x, id);
      WithoutIsShorter(init, x);
      PlaceSnoc(Without(init, x), last, id);
      WithoutAll(init, x);
      PlacedIff(init, id);
      PlacedIff(Without(init, x), id);
    }
  }

  lemma {:induction false} MarksMoveUp(rows: Rows, ids: seq<string>, marks: nat -> bool, id: string)
    ensures Wait(MarkedWhere(rows, ids, marks), id) <= Wait(rows, id)
  {
    if ids != [] {
      var n := |ids| - 1;
      MarksMoveUp(rows, ids[..n], marks, id);
      var before := MarkedWhere(rows, ids[..n], marks);
      QueueMarked(before, ids[n]);
      PlaceWithout(Queue(before), ids[n], id);
    }
  }

  // ---- Rows that settle, and rows that come later ----

  /** The pending rows are the same. */
  lemma {:induction false} SameWaiting(a: Rows, b: Rows)
    requires |a| == |b|
    requires forall i :: 0 <= i < |a| ==> (a[i].status.Pending? <==> b[i].status.Pending?) && (a[i].status.Pending? ==> a[i] == b[i])
    ensures Waiting(a) == Waiting(b)
  {
    if a != [] {
      SameWaiting(a[..|a| - 1], b[..|b| - 1]);
    }
  }

  /** The ids of the rows that are pending in `a` and no longer in `b`. */
  function SettledIds(a: Rows, b: Rows): seq<string>
    requires |a| == |b|
  {
    if a == [] then []
    else
      var n := |a| - 1;
      var before := SettledIds(a[..n], b[..n]);
      if a[n].status.Pending? && !b[n].status.Pending? then before + [a[n].id] else before
  }

  lemma {:induction false} SettledIdsAre(a: Rows, b: Rows, i: nat)
    requires |a| == |b| && DistinctIds(a) && i < |a|
    ensures a[i].id in SettledIds(a, b) <==> a[i].status.Pending? && !b[i].status.Pending?
  {
    var n := |a| - 1;
    if i < n {
      SettledIdsAre(a[..n], b[..n], i);
      assert a[i].id != a[n].id;
    } else {
      NotSettledEarlier(a[..n], b[..n], a[n].id);
    }
  }

  lemma {:induction false} NotSettledEarlier(a: Rows, b: Rows, id: string)
    requires |a| == |b| && forall i :: 0 <= i < |a| ==> a[i].id != id
    ensures id !in SettledIds(a, b)
  {
    if a != [] {
      NotSettledEarlier(a[..|a| - 1], b[..|b| - 1], id);
    }
  }

  lemma {:induction false} MarkedAt(rows: Rows, ids: seq<string>, marks: nat -> bool, i: nat)
    requires i < |rows| && forall n :: 0 <= n < |ids| ==> marks(n)
    ensures var m := MarkedWhere(rows, ids, marks);
      |m| == |rows| && m[i] == if rows[i].id in ids && rows[i].status.Pending? then rows[i].(status := Delivered) else rows[i]
  {
    if ids != [] {
      var n := |ids| - 1;
      MarkedAt(rows, ids[..n], marks, i);
      assert ids == ids[..n] + [ids[n]];
    }
  }

  /** Rows that only settle let those that stay pending move up. */
  lemma SettlingMovesUp(a: Rows, b: Rows, id: string)
    requires |a| == |b| && AllAged(a, b) && DistinctIds(a)
    ensures Wait(b, id) <= Wait(a, id)
  {
    var ids := SettledIds(a, b);
    var m := MarkedWhere(a, ids, n => true);
    MarksMoveUp(a, ids, n => true, id);
    forall i | 0 <= i < |a|
      ensures |m| == |a| && (m[i].status.Pending? <==> b[i].status.Pending?) && (m[i].status.Pending? ==> m[i] == b[i])
    {
      MarkedAt(a, ids, n => true, i);
      SettledIdsAre(a, b, i);
      assert Aged(a[i], b[i]);
    }
    if a != [] {
      MarkedAt(a, ids, n => true, 0);
      SameWaiting(m, b);
    }
  }

  /** A row that comes no earlier than the one waited for is queued behind it. */
  lemma {:induction false} QueuedBehind(queue: Rows, r: Row, id: string)
    requires r.id != id && forall q :: q in queue && q.id == id ==> q.createdAt <= r.createdAt
    ensures Place(Queued(queue, r), id) == Place(queue, id)
  {
    if queue != [] && r.createdAt < queue[|queue| - 1].createdAt {
      var init, last := queue[..|queue| - 1], queue[|queue| - 1];
      assert queue == init + [last] && last in queue;
      QueuedBehind(init, r, id);
      PlaceSnoc(Queued(init, r), last, id);
    } else {
      PlaceSnoc(queue, r, id);
    }
  }

  lemma {:induction false} LateRowsQueueBehind(early: Rows, late: Rows, id: string, at: real)
    requires forall r :: r in early && r.id == id ==> r.createdAt <= at
    requires forall r :: r in late ==> r.id != id && at <= r.createdAt
    ensures Place(OldestFirst(early + late), id) == Place(OldestFirst(early), id)
  {
    if late == [] {
      assert early + late == early;
    } else {
      var n := |late| - 1;
      assert late == late[..n] + [late[n]];
      LateRowsQueueBehind(early, late[..n], id, at);
      assert early + late == early + late[..n] + [late[n]];
      LastQueuesBehind(early + late[..n], late[n], id);
    }
  }

  lemma LastQueuesBehind(rows: Rows, r: Row, id: string)
    requires r.id != id && forall q :: q in rows && q.id == id ==> q.createdAt <= r.createdAt
    ensures Place(OldestFirst(rows + [r]), id) == Place(OldestFirst(rows), id)
  {
    QueueMembers(rows);
    OldestFirstSnoc(rows, r);
    QueuedBehind(OldestFirst(rows), r, id);
  }

  lemma QueueMembers(rows: Rows)
    ensures forall r :: r in OldestFirst(rows) <==> r in rows
  {
    OldestFirstInOrder(rows);
    Collections.SameMembers(OldestFirst(rows), rows);
  }

  lemma OldestFirstSnoc(rows: Rows, r: Row)
    ensures OldestFirst(rows + [r]) == Queued(OldestFirst(rows), r)
  {
    assert (rows + [r])[..|rows|] == rows;
  }

  lemma {:induction false} WaitingAppend(a: Rows, b: Rows)
    ensures Waiting(a + b) == Waiting(a) + Waiting(b)
  {
    if b == [] {
      assert a + b == a && Waiting(a) + [] == Waiting(a);
    } else {
      assert (a + b)[..|a + b| - 1] == a + b[..|b| - 1];
      WaitingAppend(a, b[..|b| - 1]);
    }
  }

  /** What may happen between two flushes: rows age in any way, and new ones are filed no earlier than `at`. */
  ghost predicate Meanwhile(before: Rows, after: Rows, at: real) {
    && AllAged(before, after) && DistinctIds(after)
    && forall i :: |before| <= i < |after| ==> at <= after[i].createdAt
  }

  /** Every step of the delivery protocol is such a thing, as long as the clock does not run backwards. */
  lemma AnyStepIsMeanwhile(s: State, e: Event, at: real)
    requires Enabled(s, e) && RowsJustified(s) && (e.File? || e.Post? ==> at <= e.at)
    ensures Meanwhile(s.rows, RowsAfter(s, e), at)
  {
    StepAges(s, e);
    StepKeepsReasons(s, e);
  }

  lemma MeanwhileMovesUp(before: Rows, after: Rows, i: nat, at: real)
    requires DistinctIds(before) && Meanwhile(before, after, at)
    requires i < |before| && before[i].createdAt <= at
    ensures Wait(after, before[i].id) <= Wait(before, before[i].id)
  {
    var id, n := before[i].id, |before|;
    var kept, late := after[..n], after[n..];
    assert after == kept + late;
    assert Aged(before[i], after[i]);
    SettlingMovesUp(before, kept, id);
    WaitingAppend(kept, late);
    KeptAreEarly(after, n, i, at);
    LateAreLater(after, n, i, at);
    LateRowsQueueBehind(Waiting(kept), Waiting(late), id, at);
  }

  lemma KeptAreEarly(after: Rows, n: nat, i: nat, at: real)
    requires i < n <= |after| && DistinctIds(after) && after[i].createdAt <= at
    ensures forall r :: r in Waiting(after[..n]) && r.id == after[i].id ==> r.createdAt <= at
  {
    WaitingAre(after[..n]);
    forall r | r in after[..n] && r.id == after[i].id ensures r.createdAt <= at {
      var j :| 0 <= j < n && after[j] == r;
      assert j == i;
    }
  }

  lemma LateAreLater(after: Rows, n: nat, i: nat, at: real)
    requires i < n <= |after| && DistinctIds(after)
    requires forall k :: n <= k < |after| ==> at <= after[k].createdAt
    ensures forall r :: r in Waiting(after[n..]) ==> r.id != after[i].id && at <= r.createdAt
  {
    WaitingAre(after[n..]);
    forall r | r in after[n..] ensures r.id != after[i].id && at <= r.createdAt {
      var k :| n <= k < |after| && after[k] == r;
      assert i < k;
    }
  }

  // ---- Flushes that take their whole batch ----

  lemma {:induction false} PlaceBehind(queue: Rows, n: nat, id: string)
    requires n <= |queue| && DistinctIds(queue)
    ensures Place(queue[n..], id) == if Place(queue, id) > n then Place(queue, id) - n else 0
    decreases |queue|
  {
    if n == |queue| {
    } else {
      var m := |queue| - 1;
      var init, last := queue[..m], queue[m];
      assert queue == init + [last];
      PlaceBehind(init, n, id);
      if last.id == id {
        PlacedIff(init, id);
      }
      PlaceBehindSnoc(init, last, n, id);
    }
  }

  lemma PlaceBehindSnoc(init: Rows, last: Row, n: nat, id: string)
    requires n <= |init| && (last.id == id ==> Place(init, id) == 0)
    requires Place(init[n..], id) == if Place(init, id) > n then Place(init, id) - n else 0
    ensures var p := Place(init + [last], id); Place((init + [last])[n..], id) == if p > n then p - n else 0
  {
    assert (init + [last])[n..] == init[n..] + [last];
    PlaceSnoc(init, last, id);
    PlaceSnoc(init[n..], last, id);
  }

  lemma FlushMovesUp(before: Rows, after: Rows, batch: int, id: string)
    requires DistinctIds(before) && CleanFlush(before, after, batch)
    ensures DistinctIds(after)
    ensures Wait(after, id) <= if Wait(before, id) > AtLeastOne(batch) then Wait(before, id) - AtLeastOne(batch) else 0
  {
    var landed: seq<string>, marks: nat -> bool :|
      && |landed| == |Batch(before, batch)|
      && (forall n :: 0 <= n < |landed| ==> landed[n] == Batch(before, batch)[n].id && marks(n))
      && after == MarkedWhere(before, landed, marks);
    MarkedPrefix(before, landed, marks);
    QueueDistinct(before);
    PlaceBehind(Queue(before), |landed|, id);
  }

  lemma {:induction false} MarkingAges(rows: Rows, landed: seq<string>, marks: nat -> bool)
    ensures |MarkedWhere(rows, landed, marks)| == |rows| && AllAged(rows, MarkedWhere(rows, landed, marks))
  {
    if landed != [] {
      MarkingAges(rows, landed[..|landed| - 1], marks);
    }
  }

  /** The ids a flush that begins now will send. */
  function BatchIds(rows: Rows, batch: int): (ids: seq<string>)
    ensures |ids| == |Batch(rows, batch)| && forall n :: 0 <= n < |ids| ==> ids[n] == Batch(rows, batch)[n].id
  {
    var b := Batch(rows, batch);
    seq(|b|, n requires 0 <= n < |b| => b[n].id)
  }

  /** A flush that takes its whole batch: all of it is settled when it ends, whatever else happened between its sends. */
  ghost predicate WholeFlush(before: Rows, after: Rows, batch: int, at: real) {
    && Meanwhile(before, after, at)
    && forall i :: 0 <= i < |before| && before[i].id in BatchIds(before, batch) ==> !after[i].status.Pending?
  }

  /** One with nothing else in between is such a flush. */
  lemma CleanIsWhole(before: Rows, after: Rows, batch: int, at: real)
    requires DistinctIds(before) && CleanFlush(before, after, batch)
    ensures WholeFlush(before, after, batch, at)
  {
    var landed: seq<string>, marks: nat -> bool :|
      && |landed| == |Batch(before, batch)|
      && (forall n :: 0 <= n < |landed| ==> landed[n] == Batch(before, batch)[n].id && marks(n))
      && after == MarkedWhere(before, landed, marks);
    MarkingAges(before, landed, marks);
    MarkedPrefix(before, landed, marks);
    assert landed == BatchIds(before, batch);
    forall i | 0 <= i < |before| && before[i].id in BatchIds(before, batch) ensures !after[i].status.Pending? {
      MarkedAt(before, landed, marks, i);
    }
  }

  /** The rows of the batch as they are in the end, and the others as they were. */
  function BatchSettled(before: Rows, after: Rows, batch: int): (mid: Rows)
    requires |before| <= |after|
    ensures |mid| == |before|
    ensures forall i :: 0 <= i < |before| ==> mid[i] == if before[i].id in BatchIds(before, batch) then after[i] else before[i]
  {
    var ids := BatchIds(before, batch);
    seq(|before|, i requires 0 <= i < |before| => if before[i].id in ids then after[i] else before[i])
  }

  lemma BatchSettledMovesUp(before: Rows, after: Rows, batch: int, at: real, id: string)
    requires DistinctIds(before) && WholeFlush(before, after, batch, at)
    ensures Wait(BatchSettled(before, after, batch), id) <= Short(Wait(before, id), AtLeastOne(batch))
  {
    var ids, mid := BatchIds(before, batch), BatchSettled(before, after, batch);
    var all: nat -> bool := n => true;
    var clean := MarkedWhere(before, ids, all);
    assert CleanFlush(before, clean, batch) by {
      assert forall n :: 0 <= n < |ids| ==> ids[n] == Batch(before, batch)[n].id && all(n);
    }
    FlushMovesUp(before, clean, batch, id);
    MarkingAges(before, ids, all);
    forall i | 0 <= i < |before|
      ensures (clean[i].status.Pending? <==> mid[i].status.Pending?) && (clean[i].status.Pending? ==> clean[i] == mid[i])
    {
      MarkedAt(before, ids, all, i);
    }
    SameWaiting(clean, mid);
  }

  lemma WholeFlushMovesUp(before: Rows, after: Rows, batch: int, at: real, i: nat)
    requires DistinctIds(before) && WholeFlush(before, after, batch, at) && i < |before| && before[i].createdAt <= at
    ensures Wait(after, before[i].id) <= Short(Wait(before, before[i].id), AtLeastOne(batch))
  {
    var mid := BatchSettled(before, after, batch);
    assert forall j :: 0 <= j < |before| ==> Aged(before[j], after[j]);
    assert forall j :: 0 <= j < |mid| ==> mid[j].id == before[j].id && mid[j].createdAt == before[j].createdAt;
    assert AllAged(mid, after);
    BatchSettledMovesUp(before, after, batch, at, before[i].id);
    MeanwhileMovesUp(mid, after, i, at);
  }

  // ---- Such a flush among the steps of a run ----

  /** Nothing is filed with an earlier time. */
  ghost predicate Timely(es: seq<Event>, at: real) {
    forall k :: 0 <= k < |es| && (es[k].File? || es[k].Post?) ==> at <= es[k].at
  }

  lemma MeanwhileOn(a: Rows, b: Rows, c: Rows, at: real)
    requires Meanwhile(a, b, at) && Meanwhile(b, c, at)
    ensures Meanwhile(a, c, at)
  {
    AgesOn(a, b, c);
    forall k | |a| <= k < |c| ensures at <= c[k].createdAt {
      if k < |b| {
        assert Aged(b[k], c[k]);
      }
    }
  }

  lemma {:induction false} RunIsMeanwhile(s: State, es: seq<Event>, at: real)
    requires Allowed(s, es) && RowsJustified(s) && Timely(es, at)
    ensures Meanwhile(s.rows, Outcome(s, es).rows, at)
    decreases |es|
  {
    if es != [] {
      AnyStepIsMeanwhile(s, es[0], at);
      StepKeepsReasons(s, es[0]);
      assert forall k :: 0 <= k < |es[1..]| ==> es[1..][k] == es[k + 1];
      RunIsMeanwhile(After(s, es[0]), es[1..], at);
      MeanwhileOn(s.rows, RowsAfter(s, es[0]), Outcome(s, es).rows, at);
    }
  }

  /** A push once marked does not come back. */
  lemma {:induction false} MarkedInRun(s: State, es: seq<Event>, i: nat)
    requires Allowed(s, es) && i < |s.rows| && MarkSent(s.rows[i].id, true) in es
    ensures i < |Outcome(s, es).rows| && !Outcome(s, es).rows[i].status.Pending?
    decreases |es|
  {
    var t := After(s, es[0]);
    StepAges(s, es[0]);
    assert Aged(s.rows[i], t.rows[i]);
    RunAges(t, es[1..]);
    assert Aged(t.rows[i], Outcome(s, es).rows[i]);
    if es[0] != MarkSent(s.rows[i].id, true) {
      assert es == [es[0]] + es[1..];
      MarkedInRun(t, es[1..], i);
    }
  }

  /** A stretch of a run in which each row of the batch it began with is marked is a flush that took its whole batch. */
  lemma RunIsWholeFlush(s: State, es: seq<Event>, batch: int, at: real)
    requires Allowed(s, es) && RowsJustified(s) && Timely(es, at)
    requires forall id :: id in BatchIds(s.rows, batch) ==> MarkSent(id, true) in es
    ensures WholeFlush(s.rows, Outcome(s, es).rows, batch, at)
  {
    RunIsMeanwhile(s, es, at);
    forall i | 0 <= i < |s.rows| && s.rows[i].id in BatchIds(s.rows, batch) ensures !Outcome(s, es).rows[i].status.Pending? {
      MarkedInRun(s, es, i);
    }
  }

  // ---- The bound on the wait ----

  /** One move of the table: a flush that takes its whole batch, or anything else that may happen meanwhile. */
  datatype Move = Flush | Other

  ghost predicate Moves(before: Rows, after: Rows, m: Move, batch: int, at: real) {
    match m
    case Flush => WholeFlush(before, after, batch, at)
    case Other => Meanwhile(before, after, at)
  }

  /** How many of the first `m` moves are flushes that take their whole batch. */
  function Flushes(ms: seq<Move>, m: nat): nat
    requires m <= |ms|
  {
    if m == 0 then 0 else Flushes(ms, m - 1) + if ms[m - 1].Flush? then 1 else 0
  }

  ghost predicate History(tables: seq<Rows>, ms: seq<Move>, batch: int, at: real) {
    && |tables| == |ms| + 1 && DistinctIds(tables[0])
    && forall k :: 0 <= k < |ms| ==> Moves(tables[k], tables[k + 1], ms[k], batch, at)
  }

  /**
   However filings, acknowledgements, partial flushes and expiry fall between them and between their
   sends, every flush that takes its whole batch brings a pending push a batch nearer its turn.
   */
  lemma {:induction false} WaitIsBounded(tables: seq<Rows>, ms: seq<Move>, batch: int, at: real, i: nat, m: nat)
    requires History(tables, ms, batch, at) && i < |tables[0]| && tables[0][i].createdAt <= at && m <= |ms|
    ensures Nearer(tables[0], tables[m], i, Carried(ms, m, if batch < 1 then 1 else batch))
    decreases m
  {
    if m > 0 {
      WaitIsBounded(tables, ms, batch, at, i, m - 1);
      assert Moves(tables[m - 1], tables[m], ms[m - 1], batch, at);
      OneMove(tables[0], tables[m - 1], tables[m], ms[m - 1], batch, at, i, Carried(ms, m - 1, AtLeastOne(batch)));
    }
  }

  /** What the flushes among the first `m` moves take away, a batch each. */
  function Carried(ms: seq<Move>, m: nat, batch: nat): nat
    requires m <= |ms|
  {
    if m == 0 then 0 else Carried(ms, m - 1, batch) + if ms[m - 1].Flush? then batch else 0
  }

  lemma {:induction false} CarriedIs(ms: seq<Move>, m: nat, batch: nat)
    requires m <= |ms|
    ensures Carried(ms, m, batch) == Flushes(ms, m) * batch
  {
    if m > 0 {
      CarriedIs(ms, m - 1, batch);
      OneMore(Flushes(ms, m - 1), batch);
    }
  }

  function Short(wait: nat, done: nat): nat { if wait > done then wait - done else 0 }

  /** The same rows, grown older, with `done` of those the `i`-th waits for gone. */
  ghost predicate Nearer(first: Rows, last: Rows, i: nat, done: nat)
    requires i < |first|
  {
    && DistinctIds(last) && AllAged(first, last)
    && Wait(last, first[i].id) <= Short(Wait(first, first[i].id), done)
  }

  lemma OneMove(first: Rows, before: Rows, after: Rows, m: Move, batch: int, at: real, i: nat, done: nat)
    requires i < |first| && first[i].createdAt <= at && Nearer(first, before, i, done) && Moves(before, after, m, batch, at)
    ensures Nearer(first, after, i, done + if m.Flush? then AtLeastOne(batch) else 0)
  {
    assert Aged(first[i], before[i]);
    if m.Flush? {
      WholeFlushMovesUp(before, after, batch, at, i);
    } else {
      MeanwhileMovesUp(before, after, i, at);
    }
    AgesOn(first, before, after);
  }

  lemma AgesOn(a: Rows, b: Rows, c: Rows)
    requires AllAged(a, b) && AllAged(b, c)
    ensures AllAged(a, c)
  {
    forall i | 0 <= i < |a| ensures Aged(a[i], c[i]) {
      assert Aged(a[i], b[i]) && Aged(b[i], c[i]);
    }
  }

  // ---- The pass that files it ----

  lemma {:induction false} PassKeepsIds(d: Desk, order: seq<int>, now: real, fates: nat -> Fate)
    requires DistinctIds(d.rows)
    ensures DistinctIds(FireAll(d, order, now, fates).rows)
    ensures |d.rows| <= |FireAll(d, order, now, fates).rows| && FireAll(d, order, now, fates).rows[..|d.rows|] == d.rows
    ensures forall i :: |d.rows| <= i < |FireAll(d, order, now, fates).rows|
              ==> FireAll(d, order, now, fates).rows[i].status.Pending?
  {
    if order != [] {
      PassKeepsIds(d, order[..|order| - 1], now, fates);
    }
  }

  lemma {:induction false} AnnouncementsSplit(rows: Rows, m: nat, r: int) returns (i: nat)
    requires m <= |rows| && Announcements(rows, r) > Announcements(rows[..m], r)
    ensures m <= i < |rows| && RefersTo(rows[i], r)
  {
    var n := |rows| - 1;
    assert rows[..|rows|] == rows;
    if RefersTo(rows[n], r) {
      i := n;
    } else {
      assert rows[..n][..m] == rows[..m];
      i := AnnouncementsSplit(rows[..n], m, r);
    }
  }

  /** A due reminder with something to say is in the outbox, pending, after a pass that can file it. */
  lemma DueIsFiled(d: Desk, order: seq<int>, now: real, fates: nat -> Fate, n: nat) returns (i: nat)
    requires SetsOut(d, order, now, fates, n)
    ensures var rows := FireAll(d, order, now, fates).rows;
      && |d.rows| <= i < |rows| && RefersTo(rows[i], order[n]) && rows[i].status.Pending? && DistinctIds(rows)
  {
    PassAnnounces(d, order, now, fates, n);
    PassKeepsIds(d, order, now, fates);
    i := AnnouncementsSplit(FireAll(d, order, now, fates).rows, |d.rows|, order[n]);
  }

  /** The `n`-th candidate goes out, under an id not taken. */
  ghost predicate SetsOut(d: Desk, order: seq<int>, now: real, fates: nat -> Fate, n: nat) {
    && Lists(order, d.table) && DistinctIds(d.rows) && n < |order| && order[n] in d.table
    && GoesOut(d.table[order[n]], now, fates(n)) && !IdTaken(d, order, now, fates, n)
  }

  // ---- What became of it ----

  /** The `k`-th move is the one that expires the `i`-th push. */
  predicate ExpiredBy(tables: seq<Rows>, i: nat, k: nat) {
    k + 1 < |tables| && i < |tables[k]| && i < |tables[k + 1]| && tables[k][i].status.Pending? && tables[k + 1][i].status.Expired?
  }

  /** The clock alone expires a push: no other step of the delivery model does, and that one only a push past its keep age. */
  lemma OnlyAgeExpires(s: State, e: Event, i: nat)
    requires Enabled(s, e) && i < |s.rows| && s.rows[i].status.Pending?
    ensures i < |RowsAfter(s, e)|
    ensures RowsAfter(s, e)[i].status.Expired? <==> e.Expire? && s.rows[i].createdAt < e.cutoff
  {
    StepAges(s, e);
  }

  lemma {:induction false} ExpiredIff(tables: seq<Rows>, ms: seq<Move>, batch: int, at: real, i: nat, m: nat)
    requires History(tables, ms, batch, at) && m <= |ms| && i < |tables[0]| && tables[0][i].status.Pending?
    ensures i < |tables[m]| && (tables[m][i].status.Expired? <==> exists k :: 0 <= k < m && ExpiredBy(tables, i, k))
    decreases m
  {
    if m > 0 {
      ExpiredIff(tables, ms, batch, at, i, m - 1);
      assert Moves(tables[m - 1], tables[m], ms[m - 1], batch, at);
      assert Aged(tables[m - 1][i], tables[m][i]);
      if tables[m][i].status.Expired? && tables[m - 1][i].status.Pending? {
        assert ExpiredBy(tables, i, m - 1);
      }
    }
  }

  /**
   End to end: a due reminder with something to say goes into the outbox on the next pass that can
   file it; and once enough flushes with a taker for every frame have come round to cover the
   queue as it was then, whatever else happens between their sends and between them, its push is
   no longer waiting: it has been delivered, unless some move expired it. (Delivered means taken by
   a connection or acknowledged: `DeliveryRuns.FiredIsOnRecord`.)
   */
  lemma DueReachesTheClient(d: Desk, order: seq<int>, now: real, fates: nat -> Fate, n: nat,
                            tables: seq<Rows>, ms: seq<Move>, batch: int, at: real, m: nat) returns (i: nat)
    requires SetsOut(d, order, now, fates, n)
    requires History(tables, ms, batch, at) && tables[0] == FireAll(d, order, now, fates).rows
    requires forall r :: r in tables[0] ==> r.createdAt <= at
    requires m <= |ms| && Flushes(ms, m) * (if batch < 1 then 1 else batch) >= |Queue(tables[0])|
    ensures i < |tables[0]| && tables[0][i].status.Pending? && RefersTo(tables[0][i], order[n])
    ensures i < |tables[m]| && RefersTo(tables[m][i], order[n]) && !tables[m][i].status.Pending?
    ensures tables[m][i].status.Delivered? <==> forall k :: 0 <= k < m ==> !ExpiredBy(tables, i, k)
  {
    i := DueIsFiled(d, order, now, fates, n);
    var id, last := tables[0][i].id, tables[m];
    assert tables[0][i] in tables[0];
    WaitIsBounded(tables, ms, batch, at, i, m);
    CarriedIs(ms, m, AtLeastOne(batch));
    assert Aged(tables[0][i], last[i]);
    WaitsIff(last, id);
    assert last[i] in last;
    ExpiredIff(tables, ms, batch, at, i, m);
  }

  /** Flushes with nothing else in between expire nothing. */
  lemma {:induction false} FlushesOnlyDeliver(tables: seq<Rows>, batch: int, m: nat)
    requires m < |tables| && forall k :: 0 <= k < m ==> CleanFlush(tables[k], tables[k + 1], batch)
    ensures |tables[m]| == |tables[0]|
    ensures forall i :: 0 <= i < |tables[0]| && !tables[0][i].status.Expired? ==> !tables[m][i].status.Expired?
    decreases m
  {
    if m > 0 {
      FlushesOnlyDeliver(tables, batch, m - 1);
      assert CleanFlush(tables[m - 1], tables[m], batch);
      CleanFlushExpiresNone(tables[m - 1], tables[m], batch);
    }
  }

  lemma CleanFlushExpiresNone(before: Rows, after: Rows, batch: int)
    requires CleanFlush(before, after, batch)
    ensures |after| == |before|
    ensures forall i :: 0 <= i < |before| && !before[i].status.Expired? ==> !after[i].status.Expired?
  {
    var landed: seq<string>, marks: nat -> bool :|
      && |landed| == |Batch(before, batch)|
      && (forall n :: 0 <= n < |landed| ==> landed[n] == Batch(before, batch)[n].id && marks(n))
      && after == MarkedWhere(before, landed, marks);
    NoneExpires(before, landed, marks);
  }

  lemma {:induction false} NoneExpires(rows: Rows, landed: seq<string>, marks: nat -> bool)
    ensures |MarkedWhere(rows, landed, marks)| == |rows|
    ensures forall i :: 0 <= i < |rows| && !rows[i].status.Expired? ==> !MarkedWhere(rows, landed, marks)[i].status.Expired?
  {
    if landed != [] {
      NoneExpires(rows, landed[..|landed| - 1], marks);
    }
  }
}
