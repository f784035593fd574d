/**
 Every run of the delivery protocol: reminders being added, fired, sent, acknowledged and
 expired in any order, with a crash possible between any two writes. Process memory is lost
 in a crash; the two tables are not.
 */
module DeliveryRuns {
  import opened Outbox
  import opened Reminders
  import opened Text
  import opened Wrappers

  /** What is only history: who took or acknowledged what, and what went wrong. */
  datatype Log = Log(
    taken: set<string>,          // ids a connection accepted a frame of
    acked: set<string>,          // ids an acknowledgement named
    ticked: set<string>,         // ids acknowledged as complete
    direct: set<int>,            // reminders completed by asking
    cutoffs: set<real>,          // how far back expiry has reached
    lapses: multiset<int>,       // announcements whose mark was lost
    swallowed: multiset<int>)    // filings ignored because their id was taken

  datatype State = State(
    table: Table, rows: Rows,
    now: real, todo: set<int>, marking: Option<int>,     // the firing pass
    offered: set<string>, landed: set<string>,           // the flushes under way
    log: Log)

  const START := State(map[], [], 0.0, {}, None, {}, {}, Log({}, {}, {}, {}, {}, multiset{}, multiset{}))

  datatype Event =
    | Add(r: int, text: string, due: When)
    | Tick(r: int)
    | BeginPass(now: real)
    | Skip(r: int)                                        // not due, blank, or not filed
    | File(r: int, id: string, at: real)
    | MarkFired(ok: bool)
    | Post(id: string, kind: Kind, text: string, ref: Ref, at: real)
    | Offer(ids: set<string>)
    | Land(id: string)
    | MarkSent(id: string, ok: bool)
    | Ack(id: string, action: Action, luck: Luck)
    | Expire(cutoff: real)
    | Crash

  ghost predicate Enabled(s: State, e: Event) {
    match e
    case Add(r, _, _) => r !in s.table
    case BeginPass(_) => s.todo == {} && s.marking == None
    case Skip(r) => r in s.todo && s.marking == None
    case File(r, id, _) =>
      && r in s.todo && s.marking == None
      && r in s.table && IsDue(s.table[r].due, s.now) && Strip(s.table[r].text) != ""
    case MarkFired(_) => s.marking.Some?
    case Post(_, kind, _, _, _) => !kind.Reminder?
    case Offer(ids) => forall id :: id in ids ==> exists row :: row in s.rows && row.id == id && row.status.Pending?
    case Land(id) => id in s.offered
    case MarkSent(id, _) => id in s.landed
    case Ack(id, _, _) => id != ""
    case _ => true
  }

  function TableAfter(s: State, e: Event): Table {
    match e
    case Add(r, text, due) => s.table[r := Entry(Strip(text), due, false, false)]
    case Tick(r) => Completed(s.table, r)
    case MarkFired(ok) => if ok && s.marking.Some? then Fired(s.table, s.marking.value) else s.table
    case Ack(id, action, luck) =>
      if luck.finds && luck.writes then CompletedIf(s.table, Target(s.rows, id, action)) else s.table
    case _ => s.table
  }

  function RowsAfter(s: State, e: Event): Rows {
    match e
    case File(r, id, at) =>
      if r in s.table then Added(s.rows, id, Kind.Reminder, Strip(s.table[r].text), RefTo(r), at) else s.rows
    case Post(id, kind, text, ref, at) => Added(s.rows, id, kind, text, ref, at)
    case MarkSent(id, ok) => if ok then Marked(s.rows, id) else s.rows
    case Ack(id, _, luck) => if luck.marks then Marked(s.rows, id) else s.rows
    case Expire(cutoff) => Retired(s.rows, cutoff)
    case _ => s.rows
  }

  /** An announcement is on record but its reminder is not marked, and now never will be for it. */
  predicate Lapses(s: State, e: Event) {
    s.marking.Some? && (e.Crash? || e == MarkFired(false))
  }

  /** The filing goes nowhere: some push already has the id it drew. */
  predicate Swallows(s: State, e: Event) {
    e.File? && Holds(s.rows, e.id)
  }

  function LogAfter(s: State, e: Event): Log {
    match e
    case Tick(r) => s.log.(direct := s.log.direct + {r})
    case Land(id) => s.log.(taken := s.log.taken + {id})
    case Ack(id, action, _) =>
      s.log.(acked := s.log.acked + {id}, ticked := if action.Complete? then s.log.ticked + {id} else s.log.ticked)
    case Expire(cutoff) => s.log.(cutoffs := s.log.cutoffs + {cutoff})
    case File(r, _, _) => if Swallows(s, e) then s.log.(swallowed := s.log.swallowed + multiset{r}) else s.log
    case _ => if Lapses(s, e) then s.log.(lapses := s.log.lapses + multiset{s.marking.value}) else s.log
  }

  /** Process memory. */
  function MindAfter(s: State, e: Event): State {
    match e
    case BeginPass(now) => s.(now := now, todo := set r | r in s.table && Undelivered(s.table[r]))
    case Skip(r) => s.(todo := s.todo - {r})
    case File(r, _, _) => s.(todo := s.todo - {r}, marking := Some(r))
    case MarkFired(_) => s.(marking := None)
    case Offer(ids) => s.(offered := s.offered + ids)
    case Land(id) => s.(landed := s.landed + {id})
    case MarkSent(id, _) => s.(landed := s.landed - {id})
    case Crash => s.(todo := {}, marking := None, offered := {}, landed := {})
    case _ => s
  }

  function After(s: State, e: Event): State {
    MindAfter(s, e).(table := TableAfter(s, e), rows := RowsAfter(s, e), log := LogAfter(s, e))
  }

  ghost predicate Allowed(s: State, es: seq<Event>)
    decreases |es|
  {
    es == [] || (Enabled(s, es[0]) && Allowed(After(s, es[0]), es[1..]))
  }

  ghost function Outcome(s: State, es: seq<Event>): State
    decreases |es|
  {
    if es == [] then s else Outcome(After(s, es[0]), es[1..])
  }

  // ---- The invariants ----

  ghost predicate PassIsSound(s: State) {
    && (forall r :: r in s.todo ==> r in s.table && !s.table[r].fired)
    && (s.marking.Some? ==> s.marking.value in s.table && !s.table[s.marking.value].fired && s.marking.value !in s.todo)
    && (forall r :: r in s.log.lapses || r in s.log.swallowed ==> r in s.table)
  }

  /** Filings are neither lost nor invented: announced or swallowed, there is one per mark, one under way, one per lapse. */
  ghost predicate Counted(s: State, r: int) {
    Announcements(s.rows, r) + s.log.swallowed[r]
      == (if r in s.table && s.table[r].fired then 1 else 0) + (if s.marking == Some(r) then 1 else 0) + s.log.lapses[r]
  }

  /** Every settled push has its reason. */
  ghost predicate Justified(row: Row, log: Log) {
    && (row.status.Delivered? ==> row.id in log.taken || row.id in log.acked)
    && (row.status.Expired? ==> exists c :: c in log.cutoffs && row.createdAt < c)
  }

  ghost predicate RowsJustified(s: State) {
    && DistinctIds(s.rows) && s.landed <= s.log.taken
    && forall i :: 0 <= i < |s.rows| ==> Justified(s.rows[i], s.log)
  }

  /** Ticked off by asking, or by a `complete` on a push that announces this reminder. */
  ghost predicate Asked(s: State, r: int) {
    r in s.log.direct || exists i :: 0 <= i < |s.rows| && RefersTo(s.rows[i], r) && s.rows[i].id in s.log.ticked
  }

  ghost predicate Sound(s: State) {
    && PassIsSound(s)
    && (forall r :: Counted(s, r))
    && RowsJustified(s)
    && (forall r :: r in s.table && s.table[r].done ==> Asked(s, r))
  }

  // ---- Rows only age ----

  /** The same push, whose status has changed at most from pending. */
  ghost predicate Aged(old_: Row, new_: Row) {
    new_.(status := old_.status) == old_ && (old_.status.Pending? || new_ == old_)
  }

  ghost predicate AllAged(a: Rows, b: Rows) {
    |a| <= |b| && forall i :: 0 <= i < |a| ==> Aged(a[i], b[i])
  }

  lemma StepAges(s: State, e: Event)
    ensures AllAged(s.rows, RowsAfter(s, e))
  {
  }

  /** In every run a push keeps its id, kind, words and ref, and leaves `pending` at most once, for good. */
  lemma {:induction false} RunAges(s: State, es: seq<Event>)
    requires Allowed(s, es)
    ensures AllAged(s.rows, Outcome(s, es).rows)
    decreases |es|
  {
    if es != [] {
      StepAges(s, es[0]);
      RunAges(After(s, es[0]), es[1..]);
    }
  }

  // ---- Each event keeps each invariant ----

  /** No step but the mark touches which reminders have fired, and no reminder is ever lost. */
  lemma TableGrows(s: State, e: Event, r: int)
    requires Enabled(s, e)
    ensures r in s.table ==> r in TableAfter(s, e)
    ensures r in s.table ==> TableAfter(s, e)[r].fired == (s.table[r].fired || (e == MarkFired(true) && s.marking == Some(r)))
    ensures r !in s.table && r in TableAfter(s, e) ==> e.Add? && e.r == r && !TableAfter(s, e)[r].fired
  {
  }

  lemma OneLogged(s: State, e: Event, r: int)
    ensures LogAfter(s, e).lapses[r] == s.log.lapses[r] + if Lapses(s, e) && s.marking.value == r then 1 else 0
    ensures LogAfter(s, e).swallowed[r] == s.log.swallowed[r] + if Swallows(s, e) && e.r == r then 1 else 0
  {
  }

  lemma StepKeepsPass(s: State, e: Event)
    requires Enabled(s, e) && PassIsSound(s)
    ensures PassIsSound(After(s, e))
  {
    var t := After(s, e);
    forall r | r in t.todo ensures r in t.table && !t.table[r].fired {
      TableGrows(s, e, r);
    }
    if t.marking.Some? {
      TableGrows(s, e, t.marking.value);
    }
    forall r | r in t.log.lapses || r in t.log.swallowed ensures r in t.table {
      TableGrows(s, e, r);
      OneLogged(s, e, r);
    }
  }

  lemma {:induction false} AgedAnnounces(a: Rows, b: Rows, r: int)
    requires |a| == |b| && AllAged(a, b)
    ensures Announcements(a, r) == Announcements(b, r)
  {
    if a != [] {
      AgedAnnounces(a[..|a| - 1], b[..|b| - 1], r);
    }
  }

  lemma AddedAnnounces(rows: Rows, id: string, kind: Kind, text: string, ref: Ref, at: real, r: int)
    ensures Announcements(Added(rows, id, kind, text, ref, at), r)
         == Announcements(rows, r) + if !Holds(rows, id) && RefersTo(Row(id, kind, Strip(text), ref, at, Pending), r) then 1 else 0
  {
    Announced(rows, Row(id, kind, Strip(text), ref, at, Pending), r);
  }

  lemma OnlyFilingAnnounces(s: State, e: Event, r: int)
    requires Enabled(s, e)
    ensures Announcements(RowsAfter(s, e), r)
         == Announcements(s.rows, r) + if e.File? && e.r == r && !Swallows(s, e) then 1 else 0
  {
    match e
    case File(x, id, at) => AddedAnnounces(s.rows, id, Kind.Reminder, Strip(s.table[x].text), RefTo(x), at, r);
    case Post(id, kind, text, ref, at) => AddedAnnounces(s.rows, id, kind, text, ref, at, r);
    case _ =>
      StepAges(s, e);
      AgedAnnounces(s.rows, RowsAfter(s, e), r);
  }

  lemma StepKeepsCount(s: State, e: Event, r: int)
    requires Enabled(s, e) && PassIsSound(s) && Counted(s, r)
    ensures Counted(After(s, e), r)
  {
    OnlyFilingAnnounces(s, e, r);
    TableGrows(s, e, r);
    OneLogged(s, e, r);
  }

  lemma StepKeepsReasons(s: State, e: Event)
    requires Enabled(s, e) && RowsJustified(s)
    ensures RowsJustified(After(s, e))
  {
    var t := After(s, e);
    forall i | 0 <= i < |t.rows| ensures Justified(t.rows[i], t.log) {
      if i < |s.rows| {
        assert Justified(s.rows[i], s.log);
      }
    }
  }

  lemma StepKeepsAsking(s: State, e: Event, r: int)
    requires Enabled(s, e) && DistinctIds(s.rows) && r in After(s, e).table && After(s, e).table[r].done
    requires r in s.table && s.table[r].done ==> Asked(s, r)
    ensures Asked(After(s, e), r)
  {
    StepAges(s, e);
    if e.Ack? && e.luck.finds && e.luck.writes && Target(s.rows, e.id, e.action) == Some(r) {
      AckAsks(s, e, r);
    } else if e != Tick(r) {
      assert r in s.table && s.table[r].done;
      AskedStays(s, e, r);
    }
  }

  lemma AckAsks(s: State, e: Event, r: int)
    requires e.Ack? && DistinctIds(s.rows) && Target(s.rows, e.id, e.action) == Some(r)
    requires AllAged(s.rows, RowsAfter(s, e))
    ensures Asked(After(s, e), r)
  {
    var i := IndexOf(s.rows, e.id);
    assert Aged(s.rows[i], After(s, e).rows[i]);
    assert RefersTo(After(s, e).rows[i], r) && After(s, e).rows[i].id in LogAfter(s, e).ticked;
  }

  lemma AskedStays(s: State, e: Event, r: int)
    requires Asked(s, r) && AllAged(s.rows, RowsAfter(s, e))
    ensures Asked(After(s, e), r)
  {
    if r !in s.log.direct {
      var i :| 0 <= i < |s.rows| && RefersTo(s.rows[i], r) && s.rows[i].id in s.log.ticked;
      assert Aged(s.rows[i], After(s, e).rows[i]);
      assert RefersTo(After(s, e).rows[i], r) && After(s, e).rows[i].id in LogAfter(s, e).ticked;
    }
  }

  lemma StepKeepsSound(s: State, e: Event)
    requires Enabled(s, e) && Sound(s)
    ensures Sound(After(s, e))
  {
    StepKeepsPass(s, e);
    StepKeepsReasons(s, e);
    forall r ensures Counted(After(s, e), r) {
      StepKeepsCount(s, e, r);
    }
    forall r | r in After(s, e).table && After(s, e).table[r].done ensures Asked(After(s, e), r) {
      StepKeepsAsking(s, e, r);
    }
  }

  lemma {:induction false} RunKeepsSound(s: State, es: seq<Event>)
    requires Allowed(s, es) && Sound(s)
    ensures Sound(Outcome(s, es))
    decreases |es|
  {
    if es != [] {
      StepKeepsSound(s, es[0]);
      RunKeepsSound(After(s, es[0]), es[1..]);
    }
  }

  lemma {:induction false} SomeAnnouncement(rows: Rows, r: int) returns (i: nat)
    requires Announcements(rows, r) > 0
    ensures i < |rows| && RefersTo(rows[i], r)
  {
    var n := |rows| - 1;
    if RefersTo(rows[n], r) {
      i := n;
    } else {
      i := SomeAnnouncement(rows[..n], r);
    }
  }

  /** How often a mark is lost for `r` in a run. */
  ghost function LapsesIn(s: State, es: seq<Event>, r: int): nat
    decreases |es|
  {
    if es == [] then 0
    else (if Lapses(s, es[0]) && s.marking.value == r then 1 else 0) + LapsesIn(After(s, es[0]), es[1..], r)
  }

  /** How often a filing of `r` draws an id already taken. */
  ghost function SwallowsIn(s: State, es: seq<Event>, r: int): nat
    decreases |es|
  {
    if es == [] then 0
    else (if Swallows(s, es[0]) && es[0].r == r then 1 else 0) + SwallowsIn(After(s, es[0]), es[1..], r)
  }

  lemma {:induction false} LapsesAreLogged(s: State, es: seq<Event>, r: int)
    ensures Outcome(s, es).log.lapses[r] == s.log.lapses[r] + LapsesIn(s, es, r)
    ensures Outcome(s, es).log.swallowed[r] == s.log.swallowed[r] + SwallowsIn(s, es, r)
    decreases |es|
  {
    if es != [] {
      OneLogged(s, es[0], r);
      LapsesAreLogged(After(s, es[0]), es[1..], r);
    }
  }

  /**
   In every run, whatever crashes and whatever ids are drawn: a reminder marked fired has a push
   of its own kind that refers to it, unless every filing of it drew an id already taken; it is
   done only if someone asked for that, directly or by `complete` on such a push; and a push is
   settled only for a reason.
   */
  lemma FiredIsOnRecord(es: seq<Event>, r: int)
    requires Allowed(START, es) && r in Outcome(START, es).table
    ensures var s := Outcome(START, es);
      && (s.table[r].fired ==> SwallowsIn(START, es, r) > 0 || exists row :: row in s.rows && RefersTo(row, r))
      && (s.table[r].done ==> Asked(s, r))
      && forall row :: row in s.rows ==> Justified(row, s.log)
  {
    RunKeepsSound(START, es);
    var s := Outcome(START, es);
    LapsesAreLogged(START, es, r);
    assert Counted(s, r);
    if s.table[r].fired && SwallowsIn(START, es, r) == 0 {
      var i := SomeAnnouncement(s.rows, r);
      assert s.rows[i] in s.rows;
    }
  }

  /**
   A reminder is announced once for its mark and once more for every mark that was lost, less the
   filings that were swallowed: the only way to hear it twice is a crash, or a failed write,
   between filing and marking it, and the only way to miss it once marked is a repeated id.
   */
  lemma OncePerMark(es: seq<Event>, r: int)
    requires Allowed(START, es) && Outcome(START, es).marking == None && r in Outcome(START, es).table
    ensures var s := Outcome(START, es);
      Announcements(s.rows, r) + SwallowsIn(START, es, r) == LapsesIn(START, es, r) + if s.table[r].fired then 1 else 0
  {
    RunKeepsSound(START, es);
    LapsesAreLogged(START, es, r);
    assert Counted(Outcome(START, es), r);
  }

  /** A reminder keeps the words and the time it was set with, and once done stays done. */
  lemma {:induction false} RemindersLast(s: State, es: seq<Event>, r: int)
    requires Allowed(s, es) && r in s.table
    ensures var t := Outcome(s, es).table;
      r in t && t[r].text == s.table[r].text && t[r].due == s.table[r].due && (s.table[r].done ==> t[r].done)
    decreases |es|
  {
    if es != [] {
      TableKeeps(s, es[0], r);
      RemindersLast(After(s, es[0]), es[1..], r);
    }
  }

  lemma TableKeeps(s: State, e: Event, r: int)
    requires Enabled(s, e) && r in s.table
    ensures var t := TableAfter(s, e);
      r in t && t[r].text == s.table[r].text && t[r].due == s.table[r].due && (s.table[r].done ==> t[r].done)
  {
  }

  /** So what was set is what is kept, and a reminder ticked off by asking is done, in every run that goes on from there. */
  lemma SetAndTicked(s: State, r: int, text: string, due: When, between: seq<Event>, after: seq<Event>)
    requires Enabled(s, Add(r, text, due)) && Allowed(After(s, Add(r, text, due)), between)
    requires Allowed(After(Outcome(After(s, Add(r, text, due)), between), Tick(r)), after)
    ensures var t := Outcome(After(s, Add(r, text, due)), between).table; r in t && t[r].text == Strip(text) && t[r].due == due
    ensures var t := Outcome(After(Outcome(After(s, Add(r, text, due)), between), Tick(r)), after).table;
      r in t && t[r].text == Strip(text) && t[r].due == due && t[r].done
  {
    var added := After(s, Add(r, text, due));
    RemindersLast(added, between, r);
    RemindersLast(After(Outcome(added, between), Tick(r)), after, r);
  }

  /** What is posted under a new id is there in every run that goes on from there, as it was posted but for its status. */
  lemma PostStays(s: State, id: string, kind: Kind, text: string, ref: Ref, at: real, es: seq<Event>)
    requires Enabled(s, Post(id, kind, text, ref, at)) && !Holds(s.rows, id) && Allowed(After(s, Post(id, kind, text, ref, at)), es)
    ensures var rows := Outcome(After(s, Post(id, kind, text, ref, at)), es).rows;
      |s.rows| < |rows| && rows[|s.rows|].(status := Pending) == Row(id, kind, Strip(text), ref, at, Pending)
  {
    var posted := After(s, Post(id, kind, text, ref, at));
    RunAges(posted, es);
    assert Aged(posted.rows[|s.rows|], Outcome(posted, es).rows[|s.rows|]);
  }

  /** And a `complete` that goes through, on the push that announces a reminder, leaves that push settled and the reminder done for good. */
  lemma CompleteTicksOff(s: State, i: nat, r: int, es: seq<Event>)
    requires i < |s.rows| && DistinctIds(s.rows) && RefersTo(s.rows[i], r) && r in s.table && s.rows[i].id != ""
    requires Allowed(After(s, Ack(s.rows[i].id, Complete, Luck(true, true, true))), es)
    ensures var t := Outcome(After(s, Ack(s.rows[i].id, Complete, Luck(true, true, true))), es);
      && i < |t.rows| && !t.rows[i].status.Pending? && r in t.table && t.table[r].done
  {
    var e := Ack(s.rows[i].id, Complete, Luck(true, true, true));
    FoundAt(s.rows, s.rows[i].id, i);
    assert Target(s.rows, e.id, Complete) == Some(r);
    var acked := After(s, e);
    assert acked.table[r].done;
    RunAges(acked, es);
    assert Aged(acked.rows[i], Outcome(acked, es).rows[i]);
    RemindersLast(acked, es, r);
  }

  lemma TwoSteps(s: State, a: Event, b: Event)
    ensures Outcome(s, [a, b]) == After(After(s, a), b)
    ensures Allowed(s, [a, b]) <==> Enabled(s, a) && Enabled(After(s, a), b)
  {
    var mid := After(s, a);
    assert [a, b][1..] == [b] && [b][1..] == [];
    assert Outcome(mid, [b]) == After(mid, b);
    assert Allowed(mid, [b]) <==> Enabled(mid, b);
  }

  /** Filing one candidate and marking it are the two steps the pass of `Reminders.FireDue` takes for it. */
  lemma FireOneIsTwoSteps(s: State, r: int, f: Fate)
    requires r in s.todo && r in s.table && s.marking == None
    ensures var es := if GoesOut(s.table[r], s.now, f) then [File(r, f.id, f.at), MarkFired(f.marks)] else [Skip(r)];
      && Allowed(s, es)
      && FireOne(Desk(s.table, s.rows), r, s.now, f) == Desk(Outcome(s, es).table, Outcome(s, es).rows)
      && Outcome(s, es).todo == s.todo - {r} && Outcome(s, es).marking == None
  {
    if GoesOut(s.table[r], s.now, f) {
      var first, second := File(r, f.id, f.at), MarkFired(f.marks);
      var es := [first, second];
      TwoSteps(s, first, second);
    } else {
      assert [Skip(r)][1..] == [];
    }
  }

  /** One flush whose first rows land: each is taken, and then marked as far as the mark succeeds. */
  function Landings(landed: seq<string>, marks: nat -> bool): seq<Event> {
    if landed == [] then []
    else
      var n := |landed| - 1;
      Landings(landed[..n], marks) + [Land(landed[n]), MarkSent(landed[n], marks(n))]
  }

  lemma {:induction false} RunAppend(s: State, a: seq<Event>, b: seq<Event>)
    ensures Outcome(s, a + b) == Outcome(Outcome(s, a), b)
    ensures Allowed(s, a + b) <==> Allowed(s, a) && Allowed(Outcome(s, a), b)
    decreases |a|
  {
    if a == [] {
      assert a + b == b;
    } else {
      assert (a + b)[1..] == a[1..] + b;
      RunAppend(After(s, a[0]), a[1..], b);
    }
  }

  lemma {:induction false} LandingsRun(s: State, landed: seq<string>, marks: nat -> bool)
    requires forall id :: id in landed ==> id in s.offered
    ensures Allowed(s, Landings(landed, marks))
    ensures var t := Outcome(s, Landings(landed, marks));
      && t.rows == MarkedWhere(s.rows, landed, marks) && t.offered == s.offered
      && forall id :: id in landed ==> id in t.log.taken
  {
    if landed != [] {
      var n := |landed| - 1;
      var before, land, mark := Landings(landed[..n], marks), Land(landed[n]), MarkSent(landed[n], marks(n));
      LandingsRun(s, landed[..n], marks);
      RunAppend(s, before, [land, mark]);
      assert landed == landed[..n] + [landed[n]];
      LandOne(Outcome(s, before), landed[n], marks(n));
    }
  }

  lemma LandOne(s: State, id: string, ok: bool)
    requires id in s.offered
    ensures Allowed(s, [Land(id), MarkSent(id, ok)])
    ensures var t := Outcome(s, [Land(id), MarkSent(id, ok)]);
      t.rows == (if ok then Marked(s.rows, id) else s.rows) && t.offered == s.offered && t.log.taken == s.log.taken + {id}
  {
    TwoSteps(s, Land(id), MarkSent(id, ok));
  }

  /** What `Outbox.Deliverer.Flush` leaves is what a run of offers, landings and marks leaves. */
  lemma FlushIsRun(s: State, batch: int, landed: seq<string>, marks: nat -> bool) returns (es: seq<Event>)
    requires |landed| <= |Batch(s.rows, batch)| && forall n :: 0 <= n < |landed| ==> landed[n] == Batch(s.rows, batch)[n].id
    ensures Allowed(s, es) && Outcome(s, es).rows == MarkedWhere(s.rows, landed, marks)
    ensures forall id :: id in landed ==> id in Outcome(s, es).log.taken
  {
    var offer := Offer(set id | id in landed);
    QueueHolds(s.rows);
    forall id | id in landed ensures exists row :: row in s.rows && row.id == id && row.status.Pending? {
      var n :| 0 <= n < |landed| && landed[n] == id;
      assert Batch(s.rows, batch)[n] in Queue(s.rows);
    }
    es := [offer] + Landings(landed, marks);
    LandingsRun(After(s, offer), landed, marks);
    assert es[1..] == Landings(landed, marks);
  }
}
