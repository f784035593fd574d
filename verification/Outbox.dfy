/**
 The push outbox of `app/memory/store.py` and the deliverer of `app/push.py`: rows wait in a
 table until a live connection takes them, and are marked only afterwards.
 */
module Outbox {
  import opened Collections
  import opened Text
  import opened Wrappers

  datatype Kind = Reminder | Reflection | Notice | PeerEvent

  /** A value under a key of a push's `ref`, as JSON has it. */
  datatype Json = Number(n: int) | Truth(b: bool) | Other

  type Ref = map<string, Json>

  datatype Status = Pending | Delivered | Expired

  datatype Row = Row(id: string, kind: Kind, text: string, ref: Ref, createdAt: real, status: Status)

  /** The table, in the order its rows were inserted. */
  type Rows = seq<Row>

  ghost predicate DistinctIds(rows: Rows) {
    forall i, j :: 0 <= i < j < |rows| ==> rows[i].id != rows[j].id
  }

  predicate Holds(rows: Rows, id: string) {
    exists i :: 0 <= i < |rows| && rows[i].id == id
  }

  /** `INSERT OR IGNORE`: an id already taken makes this a no-op. */
  function Added(rows: Rows, id: string, kind: Kind, text: string, ref: Ref, now: real): Rows {
    if Holds(rows, id) then rows else rows + [Row(id, kind, Strip(text), ref, now, Pending)]
  }

  function MarkedRow(r: Row, id: string): Row {
    if r.id == id && r.status == Pending then r.(status := Delivered) else r
  }

  function Marked(rows: Rows, id: string): (m: Rows)
    ensures |m| == |rows| && forall i :: 0 <= i < |rows| ==> m[i] == MarkedRow(rows[i], id)
  {
    seq(|rows|, i requires 0 <= i < |rows| => MarkedRow(rows[i], id))
  }

  function ExpiredRow(r: Row, cutoff: real): Row {
    if r.status == Pending && r.createdAt < cutoff then r.(status := Expired) else r
  }

  function Retired(rows: Rows, cutoff: real): (m: Rows)
    ensures |m| == |rows| && forall i :: 0 <= i < |rows| ==> m[i] == ExpiredRow(rows[i], cutoff)
  {
    seq(|rows|, i requires 0 <= i < |rows| => ExpiredRow(rows[i], cutoff))
  }

  // ---- The queue: pending rows, oldest first, insertion order breaking ties ----

  function Waiting(rows: Rows): Rows {
    if rows == [] then []
    else
      var last := rows[|rows| - 1];
      var before := Waiting(rows[..|rows| - 1]);
      if last.status == Pending then before + [last] else before
  }

  function Queued(queue: Rows, r: Row): Rows {
    if queue != [] && r.createdAt < queue[|queue| - 1].createdAt
    then Queued(queue[..|queue| - 1], r) + [queue[|queue| - 1]]
    else queue + [r]
  }

  function OldestFirst(rows: Rows): Rows {
    if rows == [] then [] else Queued(OldestFirst(rows[..|rows| - 1]), rows[|rows| - 1])
  }

  function Queue(rows: Rows): Rows { OldestFirst(Waiting(rows)) }

  function AtLeastOne(limit: int): nat { if limit < 1 then 1 else limit }

  /** `pending_pushes`. */
  function Batch(rows: Rows, limit: int): Rows {
    var q := Queue(rows);
    if AtLeastOne(limit) < |q| then q[..AtLeastOne(limit)] else q
  }

  ghost predicate Ascending(queue: Rows) {
    forall i, j :: 0 <= i < j < |queue| ==> queue[i].createdAt <= queue[j].createdAt
  }

  lemma {:induction false} QueuedMembers(queue: Rows, r: Row)
    ensures multiset(Queued(queue, r)) == multiset(queue) + multiset{r}
    ensures forall x :: x in Queued(queue, r) <==> x == r || x in queue
  {
    if queue != [] && r.createdAt < queue[|queue| - 1].createdAt {
      var init, last := queue[..|queue| - 1], queue[|queue| - 1];
      assert queue == init + [last];
      QueuedMembers(init, r);
    }
  }

  lemma {:induction false} QueuedInOrder(queue: Rows, r: Row)
    requires Ascending(queue)
    ensures Ascending(Queued(queue, r))
  {
    if queue != [] && r.createdAt < queue[|queue| - 1].createdAt {
      var init, last := queue[..|queue| - 1], queue[|queue| - 1];
      assert forall k :: 0 <= k < |init| ==> queue[k] == init[k];
      QueuedInOrder(init, r);
      QueuedMembers(init, r);
      var inner := Queued(init, r);
      forall k | 0 <= k < |inner| ensures inner[k].createdAt <= last.createdAt {
        assert inner[k] in inner;
      }
    }
  }

  /** The queue is the pending rows, each once, oldest first. */
  lemma {:induction false} OldestFirstInOrder(rows: Rows)
    ensures Ascending(OldestFirst(rows)) && multiset(OldestFirst(rows)) == multiset(rows)
  {
    if rows != [] {
      OldestFirstInOrder(rows[..|rows| - 1]);
      QueuedInOrder(OldestFirst(rows[..|rows| - 1]), rows[|rows| - 1]);
      QueuedMembers(OldestFirst(rows[..|rows| - 1]), rows[|rows| - 1]);
      assert rows == rows[..|rows| - 1] + [rows[|rows| - 1]];
    }
  }

  lemma {:induction false} WaitingAre(rows: Rows)
    ensures forall r :: r in Waiting(rows) <==> r in rows && r.status == Pending
  {
    if rows != [] {
      assert rows == rows[..|rows| - 1] + [rows[|rows| - 1]];
      WaitingAre(rows[..|rows| - 1]);
    }
  }

  lemma QueueHolds(rows: Rows)
    ensures Ascending(Queue(rows)) && forall r :: r in Queue(rows) <==> r in rows && r.status == Pending
  {
    WaitingAre(rows);
    OldestFirstInOrder(Waiting(rows));
    SameMembers(Queue(rows), Waiting(rows));
  }

  /** The rows created at `t`, in order. */
  function AtTime(rows: Rows, t: real): Rows {
    if rows == [] then []
    else
      var last := rows[|rows| - 1];
      AtTime(rows[..|rows| - 1], t) + if last.createdAt == t then [last] else []
  }

  lemma AtTimeSnoc(init: Rows, last: Row, t: real)
    ensures AtTime(init + [last], t) == AtTime(init, t) + if last.createdAt == t then [last] else []
  {
    assert (init + [last])[..|init|] == init;
  }

  lemma {:induction false} QueuedAtTime(queue: Rows, r: Row, t: real)
    ensures AtTime(Queued(queue, r), t) == AtTime(queue, t) + if r.createdAt == t then [r] else []
  {
    if queue != [] && r.createdAt < queue[|queue| - 1].createdAt {
      var init, last := queue[..|queue| - 1], queue[|queue| - 1];
      QueuedAtTime(init, r, t);
      AtTimeSnoc(Queued(init, r), last, t);
      OneOfTwo(AtTime(init, t), if r.createdAt == t then [r] else [], if last.createdAt == t then [last] else []);
    } else {
      AtTimeSnoc(queue, r, t);
    }
  }

  lemma OneOfTwo<T>(a: seq<T>, b: seq<T>, c: seq<T>)
    requires b == [] || c == []
    ensures a + b + c == a + c + b
  {
  }

  /** Rows created at the same time are queued in the order they were inserted. */
  lemma {:induction false} TiesInOrder(rows: Rows, t: real)
    ensures AtTime(OldestFirst(rows), t) == AtTime(rows, t)
  {
    if rows != [] {
      var init, last := rows[..|rows| - 1], rows[|rows| - 1];
      TiesInOrder(init, t);
      QueuedAtTime(OldestFirst(init), last, t);
    }
  }

  lemma {:induction false} QueueCounts(rows: Rows)
    ensures |Queue(rows)| == |set i | 0 <= i < |rows| && rows[i].status == Pending|
  {
    OldestFirstInOrder(Waiting(rows));
    assert |Queue(rows)| == |multiset(Queue(rows))| == |multiset(Waiting(rows))| == |Waiting(rows)|;
    WaitingCounts(rows);
  }

  lemma {:induction false} WaitingCounts(rows: Rows)
    ensures |Waiting(rows)| == |set i | 0 <= i < |rows| && rows[i].status == Pending|
  {
    WaitingCountsTo(rows, |rows|);
    assert rows[..|rows|] == rows;
    assert (set i | 0 <= i < |rows| && rows[i].status == Pending) == PendingTo(rows, |rows|);
  }

  ghost function PendingTo(rows: Rows, m: nat): set<int>
    requires m <= |rows|
  {
    set i | 0 <= i < m && rows[i].status == Pending
  }

  lemma {:induction false} WaitingCountsTo(rows: Rows, m: nat)
    requires m <= |rows|
    ensures |Waiting(rows[..m])| == |PendingTo(rows, m)|
  {
    if m == 0 {
      NoMembers(PendingTo(rows, m));
    } else {
      WaitingCountsTo(rows, m - 1);
      assert rows[..m][..m - 1] == rows[..m - 1];
      OneMorePending(rows, m - 1);
    }
  }

  lemma OneMorePending(rows: Rows, n: nat)
    requires n < |rows|
    ensures |PendingTo(rows, n + 1)| == |PendingTo(rows, n)| + if rows[n].status == Pending then 1 else 0
  {
    var before, after := PendingTo(rows, n), PendingTo(rows, n + 1);
    assert n !in before;
    assert forall i :: i in after <==> i in before || (i == n && rows[n].status == Pending);
    if rows[n].status == Pending {
      assert after == before + {n};
    } else {
      assert after == before;
    }
  }

  /** A batch is the oldest pending rows: as many as asked for, but at least one, or all there are. */
  lemma BatchIs(rows: Rows, limit: int)
    ensures var b, waiting := if limit < 1 then 1 else limit, |set i | 0 <= i < |rows| && rows[i].status == Pending|;
      |Batch(rows, limit)| == (if waiting < b then waiting else b) && Batch(rows, limit) <= Queue(rows)
  {
    QueueCounts(rows);
  }

  // ---- What marking rows does to the queue ----

  function Without(rows: Rows, id: string): Rows {
    if rows == [] then []
    else
      var last := rows[|rows| - 1];
      var before := Without(rows[..|rows| - 1], id);
      if last.id == id then before else before + [last]
  }

  lemma {:induction false} WithoutAll(rows: Rows, id: string)
    ensures forall r :: r in Without(rows, id) <==> r in rows && r.id != id
    ensures (forall r :: r in rows ==> r.id != id) ==> Without(rows, id) == rows
  {
    if rows != [] {
      assert rows == rows[..|rows| - 1] + [rows[|rows| - 1]];
      WithoutAll(rows[..|rows| - 1], id);
    }
  }

  lemma {:induction false} WithoutAppend(a: Rows, b: Rows, id: string)
    ensures Without(a + b, id) == Without(a, id) + Without(b, id)
  {
    if b == [] {
      assert a + b == a;
    } else {
      assert (a + b)[..|a + b| - 1] == a + b[..|b| - 1];
      WithoutAppend(a, b[..|b| - 1], id);
    }
  }

  lemma {:induction false} WaitingMarked(rows: Rows, id: string)
    ensures Waiting(Marked(rows, id)) == Without(Waiting(rows), id)
  {
    if rows != [] {
      var init, last := rows[..|rows| - 1], rows[|rows| - 1];
      assert Marked(rows, id)[..|rows| - 1] == Marked(init, id);
      WaitingMarked(init, id);
      if last.status == Pending {
        assert (Waiting(init) + [last])[..|Waiting(init)|] == Waiting(init);
      }
    }
  }

  lemma WithoutSnoc(init: Rows, last: Row, id: string)
    ensures Without(init + [last], id) == if last.id == id then Without(init, id) else Without(init, id) + [last]
  {
    assert (init + [last])[..|init|] == init;
  }

  lemma {:induction false} QueuedWithout(queue: Rows, r: Row, id: string)
    requires Ascending(queue)
    ensures Without(Queued(queue, r), id)
         == if r.id == id then Without(queue, id) else Queued(Without(queue, id), r)
  {
    if queue != [] && r.createdAt < queue[|queue| - 1].createdAt {
      var init, last := queue[..|queue| - 1], queue[|queue| - 1];
      assert queue == init + [last];
      QueuedWithout(init, r, id);
      QueuedWithoutLast(init, last, r, id);
    } else {
      WithoutSnoc(queue, r, id);
      if r.id != id {
        LastStaysLast(queue, r, id);
      }
    }
  }

  lemma QueuedWithoutLast(init: Rows, last: Row, r: Row, id: string)
    requires r.createdAt < last.createdAt
    requires Without(Queued(init, r), id) == if r.id == id then Without(init, id) else Queued(Without(init, id), r)
    ensures Without(Queued(init + [last], r), id)
         == if r.id == id then Without(init + [last], id) else Queued(Without(init + [last], id), r)
  {
    QueuedSnoc(init, last, r);
    WithoutSnoc(Queued(init, r), last, id);
    WithoutSnoc(init, last, id);
    QueuedSnoc(Without(init, id), last, r);
  }

  lemma LastStaysLast(queue: Rows, r: Row, id: string)
    requires Ascending(queue) && (queue != [] ==> queue[|queue| - 1].createdAt <= r.createdAt)
    ensures Queued(Without(queue, id), r) == Without(queue, id) + [r]
  {
    WithoutAll(queue, id);
    var w := Without(queue, id);
    if w != [] {
      assert w[|w| - 1] in queue;
    }
  }

  lemma QueuedSnoc(init: Rows, last: Row, r: Row)
    requires r.createdAt < last.createdAt
    ensures Queued(init + [last], r) == Queued(init, r) + [last]
  {
    assert (init + [last])[..|init|] == init;
  }

  lemma {:induction false} OldestFirstWithout(rows: Rows, id: string)
    ensures OldestFirst(Without(rows, id)) == Without(OldestFirst(rows), id)
  {
    if rows != [] {
      var init, last := rows[..|rows| - 1], rows[|rows| - 1];
      OldestFirstWithout(init, id);
      OldestFirstInOrder(init);
      QueuedWithout(OldestFirst(init), last, id);
      if last.id != id {
        assert (Without(init, id) + [last])[..|Without(init, id)|] == Without(init, id);
      }
    }
  }

  /** Marking a row takes it out of the queue and leaves the order of the others alone. */
  lemma QueueMarked(rows: Rows, id: string)
    ensures Queue(Marked(rows, id)) == Without(Queue(rows), id)
  {
    WaitingMarked(rows, id);
    OldestFirstWithout(Waiting(rows), id);
  }

  lemma {:induction false} WaitingDistinct(rows: Rows)
    requires DistinctIds(rows)
    ensures DistinctIds(Waiting(rows))
  {
    if rows != [] {
      var init, last := rows[..|rows| - 1], rows[|rows| - 1];
      WaitingDistinct(init);
      WaitingAre(init);
      forall r | r in Waiting(init) ensures r.id != last.id {
        assert r in init;
        var i :| 0 <= i < |init| && init[i] == r;
        assert rows[i].id != rows[|rows| - 1].id;
      }
    }
  }

  lemma {:induction false} QueuedDistinct(queue: Rows, r: Row)
    requires Ascending(queue) && DistinctIds(queue) && forall x :: x in queue ==> x.id != r.id
    ensures DistinctIds(Queued(queue, r))
  {
    if queue != [] && r.createdAt < queue[|queue| - 1].createdAt {
      var init, last := queue[..|queue| - 1], queue[|queue| - 1];
      assert queue == init + [last];
      QueuedDistinct(init, r);
      QueuedMembers(init, r);
      var inner := Queued(init, r);
      forall i | 0 <= i < |inner| ensures inner[i].id != last.id {
        assert inner[i] == r || inner[i] in init;
      }
    }
  }

  lemma {:induction false} OldestFirstDistinct(rows: Rows)
    requires DistinctIds(rows)
    ensures DistinctIds(OldestFirst(rows))
  {
    if rows != [] {
      var init, last := rows[..|rows| - 1], rows[|rows| - 1];
      OldestFirstDistinct(init);
      OldestFirstInOrder(init);
      SameMembers(OldestFirst(init), init);
      forall x | x in OldestFirst(init) ensures x.id != last.id {
        assert x in init;
        var i :| 0 <= i < |init| && init[i] == x;
        assert rows[i].id != rows[|rows| - 1].id;
      }
      QueuedDistinct(OldestFirst(init), last);
    }
  }

  lemma QueueDistinct(rows: Rows)
    requires DistinctIds(rows)
    ensures DistinctIds(Queue(rows))
  {
    WaitingDistinct(rows);
    OldestFirstDistinct(Waiting(rows));
  }

  /** Marking the row at the head of the queue leaves the rest of the queue. */
  lemma HeadMarked(rows: Rows)
    requires DistinctIds(rows) && Queue(rows) != []
    ensures DistinctIds(Marked(rows, Queue(rows)[0].id))
    ensures Queue(Marked(rows, Queue(rows)[0].id)) == Queue(rows)[1..]
  {
    var q := Queue(rows);
    QueueDistinct(rows);
    QueueMarked(rows, q[0].id);
    assert q == [q[0]] + q[1..];
    WithoutAppend([q[0]], q[1..], q[0].id);
    assert Without([q[0]], q[0].id) == [];
    WithoutAll(q[1..], q[0].id);
  }

  // ---- The store's methods ----

  class OutboxStore {
    var rows: Rows

    constructor ()
      ensures rows == []
    {
      rows := [];
    }

    method AddPush(id: string, kind: Kind, text: string, ref: Ref, now: real)
      modifies this
      ensures rows == Added(old(rows), id, kind, text, ref, now)
      ensures rows == if exists i :: 0 <= i < |old(rows)| && old(rows)[i].id == id then old(rows)
                      else old(rows) + [Row(id, kind, Strip(text), ref, now, Pending)]
      ensures old(DistinctIds(rows)) ==> DistinctIds(rows)
    {
      if !Holds(rows, id) {
        rows := rows + [Row(id, kind, Strip(text), ref, now, Pending)];
      }
    }

    method PendingPushes(limit: int) returns (batch: Rows)
      ensures batch == Batch(rows, limit)
    {
      batch := Batch(rows, limit);
    }

    method MarkPushDelivered(id: string) returns (changed: bool)
      modifies this
      ensures rows == Marked(old(rows), id) && |rows| == |old(rows)|
      ensures forall i :: 0 <= i < |rows| ==>
                rows[i] == if old(rows)[i].id == id && old(rows)[i].status == Pending
                           then old(rows)[i].(status := Delivered) else old(rows)[i]
      ensures changed == exists i :: 0 <= i < |old(rows)| && old(rows)[i].id == id && old(rows)[i].status == Pending
    {
      changed := exists i :: 0 <= i < |rows| && rows[i].id == id && rows[i].status == Pending;
      rows := Marked(rows, id);
    }

    method GetPush(id: string) returns (row: Option<Row>)
      ensures row.Some? ==> row.value in rows && row.value.id == id
      ensures row == None ==> !Holds(rows, id)
    {
      if i :| 0 <= i < |rows| && rows[i].id == id {
        return Some(rows[i]);
      }
      return None;
    }

    method ExpirePushes(cutoff: real)
      modifies this
      ensures rows == Retired(old(rows), cutoff) && |rows| == |old(rows)|
      ensures forall i :: 0 <= i < |rows| ==>
                rows[i] == if old(rows)[i].status == Pending && old(rows)[i].createdAt < cutoff
                           then old(rows)[i].(status := Expired) else old(rows)[i]
    {
      rows := Retired(rows, cutoff);
    }
  }

  // ---- The deliverer ----

  /** A live connection; the token tells connections of one session apart. */
  datatype Sink = Sink(token: Option<nat>)

  function Unbound(sinks: map<string, Sink>, session: string, token: Option<nat>): map<string, Sink> {
    if session !in sinks || (token.Some? && sinks[session].token.Some? && sinks[session].token != token)
    then sinks else sinks - {session}
  }

  /** What other handlers do to the sinks while one frame is being sent: some leave, and some join. */
  datatype Traffic = Traffic(leaves: set<string>, joins: map<string, Sink>)

  const NO_TRAFFIC := Traffic({}, map[])

  function Stirred(sinks: map<string, Sink>, t: Traffic): map<string, Sink> {
    (sinks - t.leaves) + t.joins
  }

  /** The sinks after a frame has been sent to the targets in turn; whoever did not take it is unbound by its own token. */
  function FannedOut(sinks: map<string, Sink>, targets: seq<(string, Sink)>, takes: string -> bool,
                     traffic: string -> Traffic): map<string, Sink>
  {
    if targets == [] then sinks
    else
      var n := |targets| - 1;
      var (s, sink) := targets[n];
      var now := Stirred(FannedOut(sinks, targets[..n], takes, traffic), traffic(s));
      if takes(s) then now else Unbound(now, s, sink.token)
  }

  /**
   What the world does during one flush: who is idle when it starts and before the n-th row,
   whether the outbox can be read, whether a connection takes the n-th frame, who comes and goes
   while it is sent, and whether the n-th row can be marked.
   */
  datatype World = World(ready: string -> bool, lists: bool, idle: (nat, string) -> bool, accepts: (nat, string) -> bool,
                         traffic: (nat, string) -> Traffic, marks: nat -> bool)

  predicate TargetsName(targets: seq<(string, Sink)>, s: string) {
    exists i :: 0 <= i < |targets| && targets[i].0 == s
  }

  lemma TargetsNameOneMore(targets: seq<(string, Sink)>, one: (string, Sink))
    ensures forall s :: TargetsName(targets + [one], s) <==> TargetsName(targets, s) || s == one.0
  {
    var more := targets + [one];
    assert more[|targets|] == one && forall i :: 0 <= i < |targets| ==> more[i] == targets[i];
  }

  /** Some of the first `n` targets takes the frame. */
  ghost predicate Taken(targets: seq<(string, Sink)>, n: nat, takes: string -> bool)
    requires n <= |targets|
  {
    exists i :: 0 <= i < n && takes(targets[i].0)
  }

  lemma TakenOneMore(targets: seq<(string, Sink)>, n: nat, takes: string -> bool)
    requires n < |targets|
    ensures Taken(targets, n + 1, takes) <==> Taken(targets, n, takes) || takes(targets[n].0)
  {
  }

  class Deliverer {
    var sinks: map<string, Sink>

    constructor ()
      ensures sinks == map[]
    {
      sinks := map[];
    }

    method Bind(session: string, token: Option<nat>)
      modifies this
      ensures sinks == old(sinks)[session := Sink(token)]
    {
      sinks := sinks[session := Sink(token)];
    }

    method Unbind(session: string, token: Option<nat>)
      modifies this
      ensures sinks == Unbound(old(sinks), session, token)
    {
      if session !in sinks {
        return;
      }
      if token != None && sinks[session].token != None && sinks[session].token != token {
        return;
      }
      sinks := sinks - {session};
    }

    /** `_targets`: the idle sinks, or the one asked for if it is idle. */
    function Targets(session: Option<string>, idle: string -> bool): set<string>
      reads this
    {
      set s | s in sinks && (session == None || session == Some(s)) && idle(s)
    }

    /** `_targets` as the list that is then walked, each sink as it is now. */
    method ListTargets(names: set<string>) returns (targets: seq<(string, Sink)>)
      requires names <= sinks.Keys
      ensures forall s :: s in names <==> TargetsName(targets, s)
      ensures forall i :: 0 <= i < |targets| ==> targets[i].0 in names && targets[i].1 == sinks[targets[i].0]
      ensures forall i, j :: 0 <= i < j < |targets| ==> targets[i].0 != targets[j].0
    {
      targets := [];
      var todo := names;
      while todo != {}
        invariant todo <= names
        invariant forall s :: s in names - todo <==> TargetsName(targets, s)
        invariant forall i :: 0 <= i < |targets| ==> targets[i].0 in names - todo && targets[i].1 == sinks[targets[i].0]
        invariant forall i, j :: 0 <= i < j < |targets| ==> targets[i].0 != targets[j].0
        decreases |todo|
      {
        var s := Pick(todo);
        TargetsNameOneMore(targets, (s, sinks[s]));
        targets := targets + [(s, sinks[s])];
        todo := todo - {s};
      }
      assert names - todo == names;
    }

    /** `_fan_out`: true if anyone took the frame; whoever did not is unbound on the spot. */
    method FanOut(targets: seq<(string, Sink)>, takes: string -> bool, traffic: string -> Traffic) returns (ok: bool)
      modifies this
      ensures ok == exists i :: 0 <= i < |targets| && takes(targets[i].0)
      ensures sinks == FannedOut(old(sinks), targets, takes, traffic)
    {
      ok := false;
      for n := 0 to |targets|
        invariant ok == Taken(targets, n, takes)
        invariant sinks == FannedOut(old(sinks), targets[..n], takes, traffic)
      {
        assert targets[..n + 1][..n] == targets[..n];
        var s, sink := targets[n].0, targets[n].1;
        TakenOneMore(targets, n, takes);
        sinks := Stirred(sinks, traffic(s));
        if takes(s) {
          ok := true;
        } else {
          Unbind(s, sink.token);
        }
      }
      assert targets[..|targets|] == targets;
    }

    /** One row: offered to everyone idle now, and marked only after someone has taken it. */
    method SendRow(n: nat, row: Row, session: Option<string>, outbox: OutboxStore, w: World) returns (delivered: bool)
      requires DistinctIds(outbox.rows)
      modifies this, outbox
      ensures DistinctIds(outbox.rows)
      ensures delivered == exists s :: s in old(sinks) && (session == None || session == Some(s)) && w.idle(n, s) && w.accepts(n, s)
      ensures outbox.rows == if delivered && w.marks(n) then Marked(old(outbox.rows), row.id) else old(outbox.rows)
      ensures Outlives(old(sinks), sinks, w, session)
      ensures (exists s :: s in old(sinks) && Steady(w, session, s)) ==> delivered
    {
      var names := Targets(session, s => w.idle(n, s));
      assert forall s :: s in names <==> s in sinks && (session == None || session == Some(s)) && w.idle(n, s);
      var targets := ListTargets(names);
      var takes, traffic := s => w.accepts(n, s), s => w.traffic(n, s);
      delivered := FanOut(targets, takes, traffic);
      assert forall s :: takes(s) == w.accepts(n, s) && traffic(s) == w.traffic(n, s);
      assert forall s :: Steady(w, session, s) ==> (session == None || session == Some(s)) && w.idle(n, s) && w.accepts(n, s);
      FanOutOutlives(old(sinks), targets, takes, traffic, n, w, session);
      if delivered && w.marks(n) {
        var _ := outbox.MarkPushDelivered(row.id);
      }
    }

    /** Sends the oldest pending rows until one finds no taker; `landed` lists the ids that did. */
    method Flush(enabled: bool, session: Option<string>, outbox: OutboxStore, batch: int, w: World)
        returns (sent: nat, ghost landed: seq<string>)
      requires DistinctIds(outbox.rows)
      modifies this, outbox
      ensures DistinctIds(outbox.rows)
      ensures sent == |landed|
      ensures InOrder(landed, Batch(old(outbox.rows), batch))
      ensures outbox.rows == MarkedWhere(old(outbox.rows), landed, w.marks)
      ensures Outlives(old(sinks), sinks, w, session)
      // A connection that is asked for, idle and taking every frame gets the whole batch: all there is, or as many as asked for.
      ensures enabled && w.lists && (exists s :: s in old(sinks) && Steady(w, session, s)) ==> (
        var b, waiting := if batch < 1 then 1 else batch,
                          |set i | 0 <= i < |old(outbox.rows)| && old(outbox.rows)[i].status == Pending|;
        sent == if waiting < b then waiting else b)
      // With nobody asked for and ready, or nothing to read, nothing happens.
      ensures (!enabled || !w.lists || (forall s :: s in old(sinks) && (session == None || session == Some(s)) ==> !w.ready(s)))
                ==> sent == 0 && sinks == old(sinks)
    {
      sent, landed := 0, [];
      BatchIs(outbox.rows, batch);
      if !enabled {
        return;
      }
      var targets := Targets(session, w.ready);
      assert forall s :: s in sinks && Steady(w, session, s) ==> s in targets;
      if targets == {} || !w.lists {
        return;
      }
      var rows := outbox.PendingPushes(batch);
      for n := 0 to |rows|
        invariant sent == |landed| == n && DistinctIds(outbox.rows)
        invariant InOrder(landed, rows)
        invariant outbox.rows == MarkedWhere(old(outbox.rows), landed, w.marks)
        invariant Outlives(old(sinks), sinks, w, session)
      {
        var delivered := SendRow(n, rows[n], session, outbox, w);
        if !delivered {
          return;
        }
        LandedGrows(old(outbox.rows), landed, rows[n].id, w.marks);
        OneMoreInOrder(landed, rows);
        landed := landed + [rows[n].id];
        sent := sent + 1;
      }
    }
  }

  /** The ids of the first rows, in their order. */
  ghost predicate InOrder(landed: seq<string>, rows: Rows) {
    |landed| <= |rows| && forall n :: 0 <= n < |landed| ==> landed[n] == rows[n].id
  }

  lemma OneMoreInOrder(landed: seq<string>, rows: Rows)
    requires InOrder(landed, rows) && |landed| < |rows|
    ensures InOrder(landed + [rows[|landed|].id], rows)
  {
  }

  /** No connection that is steady is dropped or replaced; and if no handler interferes, none is added. */
  ghost predicate Outlives(before: map<string, Sink>, after: map<string, Sink>, w: World, session: Option<string>) {
    && (forall s :: s in before && Steady(w, session, s) ==> s in after && after[s] == before[s])
    && (Undisturbed(w) ==> after.Keys <= before.Keys && forall s :: s in after ==> after[s] == before[s])
  }

  ghost predicate Undisturbed(w: World) {
    forall n, s :: w.traffic(n, s) == NO_TRAFFIC
  }

  predicate Mentions(t: Traffic, s: string) { s in t.leaves || s in t.joins }

  lemma {:induction false} TakerStays(sinks: map<string, Sink>, targets: seq<(string, Sink)>, takes: string -> bool,
                                      traffic: string -> Traffic, s: string)
    requires s in sinks && takes(s) && forall x :: !Mentions(traffic(x), s)
    ensures s in FannedOut(sinks, targets, takes, traffic) && FannedOut(sinks, targets, takes, traffic)[s] == sinks[s]
  {
    if targets != [] {
      TakerStays(sinks, targets[..|targets| - 1], takes, traffic, s);
      assert !Mentions(traffic(targets[|targets| - 1].0), s);
    }
  }

  lemma {:induction false} NobodyJoins(sinks: map<string, Sink>, targets: seq<(string, Sink)>, takes: string -> bool,
                                       traffic: string -> Traffic)
    requires forall x :: traffic(x) == NO_TRAFFIC
    ensures var after := FannedOut(sinks, targets, takes, traffic);
      after.Keys <= sinks.Keys && forall s :: s in after ==> after[s] == sinks[s]
  {
    if targets != [] {
      NobodyJoins(sinks, targets[..|targets| - 1], takes, traffic);
      assert traffic(targets[|targets| - 1].0) == NO_TRAFFIC;
    }
  }

  lemma FanOutOutlives(sinks: map<string, Sink>, targets: seq<(string, Sink)>, takes: string -> bool,
                       traffic: string -> Traffic, n: nat, w: World, session: Option<string>)
    requires forall s :: takes(s) == w.accepts(n, s) && traffic(s) == w.traffic(n, s)
    ensures Outlives(sinks, FannedOut(sinks, targets, takes, traffic), w, session)
  {
    var after := FannedOut(sinks, targets, takes, traffic);
    forall s | s in sinks && Steady(w, session, s) ensures s in after && after[s] == sinks[s] {
      assert w.accepts(n, s);
      forall x ensures !Mentions(traffic(x), s) {
        assert !Mentions(w.traffic(n, x), s);
      }
      TakerStays(sinks, targets, takes, traffic, s);
    }
    if Undisturbed(w) {
      forall x ensures traffic(x) == NO_TRAFFIC {
        assert w.traffic(n, x) == NO_TRAFFIC;
      }
      NobodyJoins(sinks, targets, takes, traffic);
    }
  }

  /** With nobody coming or going, exactly the targets that did not take the frame are gone. */
  lemma {:induction false} FanOutDrops(sinks: map<string, Sink>, targets: seq<(string, Sink)>, takes: string -> bool,
                                       traffic: string -> Traffic, s: string)
    requires forall x :: traffic(x) == NO_TRAFFIC
    requires forall i :: 0 <= i < |targets| ==> targets[i].0 in sinks && targets[i].1 == sinks[targets[i].0]
    ensures s in FannedOut(sinks, targets, takes, traffic)
       <==> s in sinks && !(!takes(s) && TargetsName(targets, s))
  {
    if targets != [] {
      var n := |targets| - 1;
      FanOutDrops(sinks, targets[..n], takes, traffic, s);
      NobodyJoins(sinks, targets[..n], takes, traffic);
      assert traffic(targets[n].0) == NO_TRAFFIC;
      TargetsNameOneMore(targets[..n], targets[n]);
      assert targets[..n] + [targets[n]] == targets;
    }
  }

  /** The failure of the `i`-th target takes down what is bound for `s` under the token `theirs`. */
  predicate Detaches(targets: seq<(string, Sink)>, i: nat, takes: string -> bool, s: string, theirs: nat)
    requires i < |targets|
  {
    targets[i].0 == s && !takes(s) && (targets[i].1.token == None || targets[i].1.token == Some(theirs))
  }

  /** Bound for `s` under `theirs` once the first `m` targets have been sent to. */
  ghost predicate BoundAfter(sinks: map<string, Sink>, targets: seq<(string, Sink)>, m: nat, takes: string -> bool,
                             traffic: string -> Traffic, s: string, theirs: nat)
    requires m <= |targets|
  {
    var now := FannedOut(sinks, targets[..m], takes, traffic);
    s in now && now[s] == Sink(Some(theirs))
  }

  /**
   A connection that joins for `s` while the `k`-th frame is being sent, and that no other handler
   replaces: it is bound afterwards exactly if no failure from then on, that of the connection it
   replaced included, carries its own token or none.
   */
  lemma {:induction false} NewcomerIsBoundIff(sinks: map<string, Sink>, targets: seq<(string, Sink)>, takes: string -> bool,
                                              traffic: string -> Traffic, s: string, theirs: nat, k: nat, m: nat)
    requires k < m <= |targets|
    requires s in traffic(targets[k].0).joins && traffic(targets[k].0).joins[s] == Sink(Some(theirs))
    requires forall i :: k < i < |targets| ==> !Mentions(traffic(targets[i].0), s)
    ensures BoundAfter(sinks, targets, m, takes, traffic, s, theirs)
       <==> forall i :: k <= i < m ==> !Detaches(targets, i, takes, s, theirs)
    ensures !BoundAfter(sinks, targets, m, takes, traffic, s, theirs)
        ==> s !in FannedOut(sinks, targets[..m], takes, traffic)
    decreases m
  {
    var n := m - 1;
    assert targets[..m][..n] == targets[..n] && targets[..m][n] == targets[n];
    var before, t := FannedOut(sinks, targets[..n], takes, traffic), traffic(targets[n].0);
    if n > k {
      NewcomerIsBoundIff(sinks, targets, takes, traffic, s, theirs, k, n);
      assert !Mentions(t, s);
    }
    assert BoundAfter(sinks, targets, m, takes, traffic, s, theirs)
      <==> (n == k || BoundAfter(sinks, targets, n, takes, traffic, s, theirs)) && !Detaches(targets, n, takes, s, theirs);
  }

  /** A connection that leaves while the `k`-th frame is being sent, and does not come back, is not bound afterwards. */
  lemma {:induction false} LeaverIsGone(sinks: map<string, Sink>, targets: seq<(string, Sink)>, takes: string -> bool,
                                        traffic: string -> Traffic, s: string, k: nat, m: nat)
    requires k < m <= |targets|
    requires s in traffic(targets[k].0).leaves && s !in traffic(targets[k].0).joins
    requires forall i :: k < i < |targets| ==> !Mentions(traffic(targets[i].0), s)
    ensures s !in FannedOut(sinks, targets[..m], takes, traffic)
    decreases m
  {
    var n := m - 1;
    assert targets[..m][..n] == targets[..n] && targets[..m][n] == targets[n];
    if n > k {
      LeaverIsGone(sinks, targets, takes, traffic, s, k, n);
      assert !Mentions(traffic(targets[n].0), s);
    }
  }

  /** So a connection that replaces a target's in the meantime is not detached by the failure of the one it replaced. */
  lemma ReplacementStays(sinks: map<string, Sink>, targets: seq<(string, Sink)>, takes: string -> bool,
                         traffic: string -> Traffic, s: string, theirs: nat, k: nat)
    requires k < |targets|
    requires s in traffic(targets[k].0).joins && traffic(targets[k].0).joins[s] == Sink(Some(theirs))
    requires forall i :: k < i < |targets| ==> !Mentions(traffic(targets[i].0), s)
    requires forall i :: 0 <= i < |targets| && targets[i].0 == s ==> targets[i].1.token.Some? && targets[i].1.token != Some(theirs)
    ensures s in FannedOut(sinks, targets, takes, traffic) && FannedOut(sinks, targets, takes, traffic)[s] == Sink(Some(theirs))
  {
    NewcomerIsBoundIff(sinks, targets, takes, traffic, s, theirs, k, |targets|);
    assert targets[..|targets|] == targets;
  }

  lemma LandedGrows(rows: Rows, landed: seq<string>, id: string, marks: nat -> bool)
    ensures MarkedWhere(rows, landed + [id], marks)
         == if marks(|landed|) then Marked(MarkedWhere(rows, landed, marks), id) else MarkedWhere(rows, landed, marks)
  {
    assert (landed + [id])[..|landed|] == landed;
  }

  /** Asked for, idle and taking frames throughout, and not replaced. */
  ghost predicate Steady(w: World, session: Option<string>, s: string) {
    && (session == None || session == Some(s)) && w.ready(s)
    && (forall n :: w.idle(n, s) && w.accepts(n, s))
    && forall n, x :: !Mentions(w.traffic(n, x), s)
  }

  /** The table after the landed rows whose marks succeeded have been marked. */
  ghost function MarkedWhere(rows: Rows, landed: seq<string>, marks: nat -> bool): Rows {
    if landed == [] then rows
    else
      var n := |landed| - 1;
      var before := MarkedWhere(rows, landed[..n], marks);
      if marks(n) then Marked(before, landed[n]) else before
  }

  /** Unbinding takes the sink down unless both sides carry a token and the two differ; no other session notices. */
  lemma UnboundIff(sinks: map<string, Sink>, session: string, token: Option<nat>)
    ensures session in Unbound(sinks, session, token)
       <==> session in sinks && exists mine, bound :: token == Some(mine) && sinks[session].token == Some(bound) && mine != bound
    ensures session in Unbound(sinks, session, token) ==> Unbound(sinks, session, token)[session] == sinks[session]
    ensures Unbound(sinks, session, token) - {session} == sinks - {session}
  {
    if session in sinks && token.Some? && sinks[session].token.Some? {
      assert token == Some(token.value) && sinks[session].token == Some(sinks[session].token.value);
    }
  }

  /** A stale handler cannot detach the connection that replaced its own. */
  lemma StaleUnbindIsIgnored(sinks: map<string, Sink>, session: string, mine: nat, theirs: nat)
    requires session in sinks && sinks[session] == Sink(Some(theirs))
    ensures Unbound(sinks, session, Some(mine)) == if mine == theirs then sinks - {session} else sinks
  {
  }

  // ---- Draining ----

  /** A flush whose whole batch lands and is marked takes exactly that batch off the queue. */
  lemma {:induction false} MarkedPrefix(rows: Rows, landed: seq<string>, marks: nat -> bool)
    requires DistinctIds(rows) && |landed| <= |Queue(rows)|
    requires forall n :: 0 <= n < |landed| ==> landed[n] == Queue(rows)[n].id && marks(n)
    ensures DistinctIds(MarkedWhere(rows, landed, marks))
    ensures Queue(MarkedWhere(rows, landed, marks)) == Queue(rows)[|landed|..]
  {
    if landed == [] {
      assert Queue(rows)[0..] == Queue(rows);
    } else {
      var n := |landed| - 1;
      MarkedPrefix(rows, landed[..n], marks);
      HeadMarked(MarkedWhere(rows, landed[..n], marks));
    }
  }

  /** What `Flush` leaves when a connection takes the whole batch and every row can be marked. */
  ghost predicate CleanFlush(before: Rows, after: Rows, batch: int) {
    exists landed: seq<string>, marks: nat -> bool ::
      && |landed| == |Batch(before, batch)|
      && (forall n :: 0 <= n < |landed| ==> landed[n] == Batch(before, batch)[n].id && marks(n))
      && after == MarkedWhere(before, landed, marks)
  }

  /** With a taker for every frame, `n` waiting rows are gone after exactly `ceil(n / batch)` flushes. */
  lemma {:induction false} DrainsInTime(tables: seq<Rows>, batch: int, k: nat)
    requires k < |tables| && DistinctIds(tables[0])
    requires forall j :: 0 < j < |tables| ==> CleanFlush(tables[j - 1], tables[j], batch)
    ensures DistinctIds(tables[k])
    ensures var b, n := if batch < 1 then 1 else batch, |Queue(tables[0])|;
            |Queue(tables[k])| == if k * b < n then n - k * b else 0
  {
    if k > 0 {
      DrainsInTime(tables, batch, k - 1);
      CleanFlushTakesBatch(tables[k - 1], tables[k], batch);
      OneMore(k - 1, AtLeastOne(batch));
    }
  }

  lemma OneMore(k: nat, b: nat)
    ensures (k + 1) * b == k * b + b
  {
  }

  lemma CleanFlushTakesBatch(before: Rows, after: Rows, batch: int)
    requires DistinctIds(before) && CleanFlush(before, after, batch)
    ensures DistinctIds(after)
    ensures var b, n := AtLeastOne(batch), |Queue(before)|; |Queue(after)| == if b < n then n - b else 0
  {
    var landed: seq<string>, marks: nat -> bool :|
      && |landed| == |Batch(before, batch)|
      && (forall n :: 0 <= n < |landed| ==> landed[n] == Batch(before, batch)[n].id && marks(n))
      && after == MarkedWhere(before, landed, marks);
    MarkedPrefix(before, landed, marks);
  }
}
