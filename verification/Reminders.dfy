/**
 Firing reminders (`app/reminders.py`) into the push outbox, and the acknowledgements that
 come back (`app/push.py`): a reminder is marked fired only after its push is on record.
 */
module Reminders {
  import opened Collections
  import opened Outbox
  import opened Text
  import opened Wrappers

  /** `remind_at`: absent, not readable as a time, or an instant. */
  datatype When = Never | Unreadable | At(instant: real)

  datatype Entry = Entry(text: string, due: When, done: bool, fired: bool)

  type Table = map<int, Entry>

  predicate IsDue(due: When, now: real) {
    due.At? && due.instant <= now
  }

  /** Timed, still to be done, and never announced. */
  predicate Undelivered(e: Entry) {
    !e.done && !e.fired && !e.due.Never?
  }

  function Fired(table: Table, r: int): Table {
    if r in table then table[r := table[r].(fired := true)] else table
  }

  function Completed(table: Table, r: int): Table {
    if r in table then table[r := table[r].(done := true)] else table
  }

  function RefTo(r: int): Ref { map["reminder_id" := Number(r)] }

  predicate RefersTo(row: Row, r: int) {
    row.kind.Reminder? && "reminder_id" in row.ref && row.ref["reminder_id"] == Number(r)
  }

  /** How many pushes announce reminder `r`. */
  function Announcements(rows: Rows, r: int): nat {
    if rows == [] then 0
    else Announcements(rows[..|rows| - 1], r) + if RefersTo(rows[|rows| - 1], r) then 1 else 0
  }

  /** What becomes of one candidate: its push id and time, and whether each write succeeds. */
  datatype Fate = Fate(id: string, at: real, files: bool, marks: bool)

  datatype Desk = Desk(table: Table, rows: Rows)

  /** A candidate goes out if it is due, says something, and can be put on record. */
  predicate GoesOut(e: Entry, now: real, f: Fate) {
    IsDue(e.due, now) && Strip(e.text) != "" && f.files
  }

  function FireOne(d: Desk, r: int, now: real, f: Fate): Desk {
    if r !in d.table || !GoesOut(d.table[r], now, f) then d
    else Desk(if f.marks then Fired(d.table, r) else d.table,
              Added(d.rows, f.id, Kind.Reminder, Strip(d.table[r].text), RefTo(r), f.at))
  }

  /** A pass over the candidates in order. */
  ghost function FireAll(d: Desk, order: seq<int>, now: real, fates: nat -> Fate): Desk {
    if order == [] then d
    else
      var n := |order| - 1;
      FireOne(FireAll(d, order[..n], now, fates), order[n], now, fates(n))
  }

  ghost predicate Distinct<T>(s: seq<T>) {
    forall i, j :: 0 <= i < j < |s| ==> s[i] != s[j]
  }

  ghost predicate Lists(order: seq<int>, table: Table) {
    Distinct(order) && forall r :: r in order <==> r in table && Undelivered(table[r])
  }

  class ReminderStore {
    var table: Table
    var nextId: int

    ghost predicate Valid()
      reads this
    {
      forall r :: r in table ==> r < nextId
    }

    constructor ()
      ensures Valid() && table == map[]
    {
      table, nextId := map[], 1;
    }

    method AddReminder(text: string, due: When) returns (id: int)
      requires Valid()
      modifies this
      ensures Valid() && id !in old(table)
      ensures table == old(table)[id := Entry(Strip(text), due, false, false)]
    {
      id := nextId;
      table := table[id := Entry(Strip(text), due, false, false)];
      nextId := nextId + 1;
    }

    /** The candidates; the store sorts them by the text of their time, which fixes no useful order. */
    method UndeliveredReminders() returns (order: seq<int>)
      ensures Lists(order, table)
      ensures forall r :: r in order <==> r in table && !table[r].done && !table[r].fired && table[r].due != Never
    {
      order := [];
      var todo := table;
      while todo.Keys != {}
        invariant todo.Keys <= table.Keys && Distinct(order)
        invariant forall r :: r in order <==> r in table && r !in todo && Undelivered(table[r])
        decreases |todo.Keys|
      {
        var r := Pick(todo.Keys);
        if Undelivered(table[r]) {
          order := order + [r];
        }
        var rest := todo - {r};
        assert rest.Keys < todo.Keys;
        Shrinks(rest.Keys, todo.Keys);
        todo := rest;
      }
      assert forall r :: r in todo <==> r in todo.Keys;
    }

    method MarkReminderFired(r: int) returns (changed: bool)
      modifies this`table
      ensures table == Fired(old(table), r)
      ensures table - {r} == old(table) - {r} && (r in table <==> r in old(table))
      ensures r in table ==> table[r] == Entry(old(table)[r].text, old(table)[r].due, old(table)[r].done, true)
      ensures changed == (r in old(table) && !old(table)[r].fired)
    {
      changed := r in table && !table[r].fired;
      if changed {
        table := table[r := table[r].(fired := true)];
      }
    }

    method CompleteReminder(r: int) returns (changed: bool)
      modifies this`table
      ensures table == Completed(old(table), r)
      ensures table - {r} == old(table) - {r} && (r in table <==> r in old(table))
      ensures r in table ==> table[r] == Entry(old(table)[r].text, old(table)[r].due, true, old(table)[r].fired)
      ensures changed == (r in old(table) && !old(table)[r].done)
    {
      changed := r in table && !table[r].done;
      if changed {
        table := table[r := table[r].(done := true)];
      }
    }
  }

  /** `enqueue`: nothing to say, or nowhere to write it, is `None`. */
  method Enqueue(outbox: OutboxStore, kind: Kind, text: string, ref: Ref, id: string, now: real, files: bool)
      returns (pushId: Option<string>)
    modifies outbox
    ensures pushId == if Strip(text) == "" || !files then None else Some(id)
    ensures outbox.rows == if pushId == None then old(outbox.rows)
                           else Added(old(outbox.rows), id, kind, Strip(text), ref, now)
  {
    var said := Strip(text);
    if said == "" || !files {
      return None;
    }
    outbox.AddPush(id, kind, said, ref, now);
    return Some(id);
  }

  /** `fire_due`: enqueue first, mark second, and count what was enqueued. */
  method FireDue(enabled: bool, readable: bool, store: ReminderStore, outbox: OutboxStore, now: real, fates: nat -> Fate)
      returns (fired: nat, ghost order: seq<int>)
    modifies store`table, outbox
    ensures enabled && readable ==> Lists(order, old(store.table))
    ensures !(enabled && readable) ==> order == []
    ensures Desk(store.table, outbox.rows) == FireAll(Desk(old(store.table), old(outbox.rows)), order, now, fates)
    ensures fired == Sent(old(store.table), order, now, fates) <= |order|
  {
    fired, order := 0, [];
    if !enabled || !readable {
      return;
    }
    var candidates := store.UndeliveredReminders();
    ghost var start := Desk(store.table, outbox.rows);
    var read := store.table;
    for n := 0 to |candidates|
      invariant order == candidates[..n]
      invariant Desk(store.table, outbox.rows) == FireAll(start, order, now, fates)
      invariant fired == Sent(start.table, order, now, fates) <= n
    {
      var r := candidates[n];
      PassKeepsEntries(start, order, now, fates, r);
      assert candidates[..n + 1][..n] == candidates[..n];
      order := candidates[..n + 1];
      if IsDue(read[r].due, now) {
        var pushId := Enqueue(outbox, Kind.Reminder, read[r].text, RefTo(r), fates(n).id, fates(n).at, fates(n).files);
        if pushId != None {
          if fates(n).marks {
            var _ := store.MarkReminderFired(r);
          }
          fired := fired + 1;
        }
      }
    }
    assert order == candidates;
  }

  ghost function Sent(table: Table, order: seq<int>, now: real, fates: nat -> Fate): nat {
    if order == [] then 0
    else
      var n := |order| - 1;
      Sent(table, order[..n], now, fates)
      + if order[n] in table && GoesOut(table[order[n]], now, fates(n)) then 1 else 0
  }

  /** Due by the clock, with something to say, and filed. */
  ghost predicate SentAt(table: Table, order: seq<int>, now: real, fates: nat -> Fate, k: nat)
    requires k < |order|
  {
    order[k] in table && (
      var e := table[order[k]];
      e.due.At? && e.due.instant <= now && Strip(e.text) != "" && fates(k).files)
  }

  lemma SentCounts(table: Table, order: seq<int>, now: real, fates: nat -> Fate)
    ensures Sent(table, order, now, fates) == |SentUpTo(table, order, now, fates, |order|)|
  {
    SentCountsTo(table, order, now, fates, |order|);
    assert order[..|order|] == order;
  }

  lemma {:induction false} SentCountsTo(table: Table, order: seq<int>, now: real, fates: nat -> Fate, m: nat)
    requires m <= |order|
    ensures Sent(table, order[..m], now, fates) == |SentUpTo(table, order, now, fates, m)|
  {
    if m == 0 {
      NoMembers(SentUpTo(table, order, now, fates, m));
    } else {
      var n := m - 1;
      SentCountsTo(table, order, now, fates, n);
      assert order[..m][..n] == order[..n];
      OneMoreSent(table, order, now, fates, n);
    }
  }

  /** Those among the first `m`. */
  ghost function SentUpTo(table: Table, order: seq<int>, now: real, fates: nat -> Fate, m: nat): set<nat>
    requires m <= |order|
  {
    Below((k: nat) => k < |order| && SentAt(table, order, now, fates, k), m)
  }

  lemma OneMoreSent(table: Table, order: seq<int>, now: real, fates: nat -> Fate, n: nat)
    requires n < |order|
    ensures |SentUpTo(table, order, now, fates, n + 1)|
         == |SentUpTo(table, order, now, fates, n)| + if SentAt(table, order, now, fates, n) then 1 else 0
  {
    OneMoreBelow((k: nat) => k < |order| && SentAt(table, order, now, fates, k), n);
  }

  // ---- What a pass does for one reminder ----

  /** A pass changes no reminder but for marking it fired, and touches only those it lists. */
  lemma {:induction false} PassKeepsEntries(d: Desk, order: seq<int>, now: real, fates: nat -> Fate, r: int)
    ensures var t := FireAll(d, order, now, fates).table;
      && (r in t <==> r in d.table)
      && (r in t ==> t[r].(fired := d.table[r].fired) == d.table[r] && (d.table[r].fired ==> t[r].fired))
      && (r in t && r !in order ==> t[r] == d.table[r])
  {
    if order != [] {
      PassKeepsEntries(d, order[..|order| - 1], now, fates, r);
    }
  }

  lemma Announced(rows: Rows, row: Row, r: int)
    ensures Announcements(rows + [row], r) == Announcements(rows, r) + if RefersTo(row, r) then 1 else 0
  {
    assert (rows + [row])[..|rows|] == rows;
  }

  /**
   One candidate. It is announced exactly when it goes out under an id no push has taken, but
   it is marked fired whether or not the id was taken: a repeated id costs the announcement.
   */
  lemma FireOneAnnounces(d: Desk, r: int, now: real, f: Fate, x: int)
    requires r in d.table
    ensures var after := FireOne(d, r, now, f);
      && Announcements(after.rows, x) == Announcements(d.rows, x)
           + (if x == r && GoesOut(d.table[r], now, f) && !Holds(d.rows, f.id) then 1 else 0)
      && after.table[r].fired == (d.table[r].fired || (GoesOut(d.table[r], now, f) && f.marks))
    ensures FireOne(d, r, now, f).rows == if !GoesOut(d.table[r], now, f) || Holds(d.rows, f.id) then d.rows
              else d.rows + [Row(f.id, Kind.Reminder, Strip(d.table[r].text), map["reminder_id" := Number(r)], f.at, Pending)]
  {
    if GoesOut(d.table[r], now, f) && !Holds(d.rows, f.id) {
      StripTwice(d.table[r].text);
      Announced(d.rows, Row(f.id, Kind.Reminder, Strip(d.table[r].text), RefTo(r), f.at, Pending), x);
    }
  }

  /** Some candidate that the pass files draws this id. */
  ghost predicate Files(d: Desk, order: seq<int>, now: real, fates: nat -> Fate, id: string) {
    order != [] &&
    var n := |order| - 1;
    || Files(d, order[..n], now, fates, id)
    || (order[n] in d.table && GoesOut(d.table[order[n]], now, fates(n)) && fates(n).id == id)
  }

  /** The id drawn for the `k`-th candidate is in the outbox already, or was filed earlier in the pass. */
  ghost predicate IdTaken(d: Desk, order: seq<int>, now: real, fates: nat -> Fate, k: nat)
    requires k < |order|
  {
    Holds(d.rows, fates(k).id) || Files(d, order[..k], now, fates, fates(k).id)
  }

  lemma AddedHolds(rows: Rows, id: string, kind: Kind, text: string, ref: Ref, now: real, x: string)
    ensures Holds(Added(rows, id, kind, text, ref, now), x) <==> Holds(rows, x) || x == id
  {
    var after := Added(rows, id, kind, text, ref, now);
    assert forall i :: 0 <= i < |rows| ==> after[i] == rows[i];
    assert !Holds(rows, id) ==> after[|after| - 1].id == id;
  }

  /** After a pass the outbox holds the ids it held and those of the candidates that were filed. */
  lemma {:induction false} PassHolds(d: Desk, order: seq<int>, now: real, fates: nat -> Fate, id: string)
    requires forall x :: x in order ==> x in d.table
    ensures Holds(FireAll(d, order, now, fates).rows, id) <==> Holds(d.rows, id) || Files(d, order, now, fates, id)
  {
    if order != [] {
      var n := |order| - 1;
      var before, f := FireAll(d, order[..n], now, fates), fates(n);
      PassHolds(d, order[..n], now, fates, id);
      PassKeepsEntries(d, order[..n], now, fates, order[n]);
      AddedHolds(before.rows, f.id, Kind.Reminder, Strip(d.table[order[n]].text), RefTo(order[n]), f.at, id);
    }
  }

  lemma {:induction false} PassSkips(d: Desk, order: seq<int>, now: real, fates: nat -> Fate, r: int)
    requires r in d.table && r !in order
    requires forall x :: x in order ==> x in d.table
    ensures Announcements(FireAll(d, order, now, fates).rows, r) == Announcements(d.rows, r)
  {
    if order != [] {
      var n := |order| - 1;
      PassSkips(d, order[..n], now, fates, r);
      PassKeepsEntries(d, order[..n], now, fates, order[n]);
      FireOneAnnounces(FireAll(d, order[..n], now, fates), order[n], now, fates(n), r);
    }
  }

  /** One more announcement if it goes out under an id not taken, and fired if it was or is now marked. */
  ghost predicate Served(d: Desk, after: Desk, r: int, goes: bool, taken: bool, marked: bool)
    requires r in d.table
  {
    && Announcements(after.rows, r) == Announcements(d.rows, r) + (if goes && !taken then 1 else 0)
    && r in after.table && after.table[r].fired == (d.table[r].fired || (goes && marked))
  }

  /**
   Over a whole pass, a candidate that is due, says something and can be filed gains exactly one
   announcement, unless the id it draws is taken, and any other candidate none; those whose mark
   also succeeds leave the list of candidates. A reminder whose text is blank is never announced.
   */
  lemma {:induction false} PassAnnounces(d: Desk, order: seq<int>, now: real, fates: nat -> Fate, k: nat)
    requires Distinct(order) && (forall x :: x in order ==> x in d.table) && k < |order|
    ensures var r := order[k];
      Served(d, FireAll(d, order, now, fates), r, GoesOut(d.table[r], now, fates(k)), IdTaken(d, order, now, fates, k), fates(k).marks)
  {
    var n, r := |order| - 1, order[k];
    if k < n {
      PassAnnounces(d, order[..n], now, fates, k);
      assert order[..n][..k] == order[..k];
      LastLeavesAlone(d, order, now, fates, r);
    } else {
      LastAnnounces(d, order[..n], now, fates, r);
    }
  }

  /**
   By the clock: a listed reminder whose instant has come, with something to say and a filing that
   succeeds under an id not taken, is announced once more, and fired if its mark succeeds.
   */
  lemma DueIsAnnounced(d: Desk, order: seq<int>, now: real, fates: nat -> Fate, k: nat)
    requires Distinct(order) && (forall x :: x in order ==> x in d.table) && k < |order| && order[k] in d.table
    requires d.table[order[k]].due.At? && d.table[order[k]].due.instant <= now
    requires Strip(d.table[order[k]].text) != "" && fates(k).files && !IdTaken(d, order, now, fates, k)
    ensures var r, after := order[k], FireAll(d, order, now, fates);
      && Announcements(after.rows, r) == Announcements(d.rows, r) + 1
      && r in after.table && after.table[r].fired == (d.table[r].fired || fates(k).marks)
  {
    PassAnnounces(d, order, now, fates, k);
  }

  /** One whose instant is still to come, or whose time cannot be read, is left alone by a pass. */
  lemma NotDueIsLeftAlone(d: Desk, order: seq<int>, now: real, fates: nat -> Fate, k: nat)
    requires Distinct(order) && (forall x :: x in order ==> x in d.table) && k < |order| && order[k] in d.table
    requires var due := d.table[order[k]].due; due.Never? || due.Unreadable? || now < due.instant
    ensures var r, after := order[k], FireAll(d, order, now, fates);
      Announcements(after.rows, r) == Announcements(d.rows, r) && r in after.table && after.table[r] == d.table[r]
  {
    PassAnnounces(d, order, now, fates, k);
    PassKeepsEntries(d, order, now, fates, order[k]);
  }

  lemma LastAnnounces(d: Desk, order: seq<int>, now: real, fates: nat -> Fate, r: int)
    requires r in d.table && r !in order && forall x :: x in order ==> x in d.table
    ensures var f := fates(|order|);
      Served(d, FireOne(FireAll(d, order, now, fates), r, now, f), r, GoesOut(d.table[r], now, f),
             Holds(d.rows, f.id) || Files(d, order, now, fates, f.id), f.marks)
  {
    PassSkips(d, order, now, fates, r);
    PassKeepsEntries(d, order, now, fates, r);
    PassHolds(d, order, now, fates, fates(|order|).id);
    FireOneAnnounces(FireAll(d, order, now, fates), r, now, fates(|order|), r);
  }

  lemma LastLeavesAlone(d: Desk, order: seq<int>, now: real, fates: nat -> Fate, r: int)
    requires order != [] && r in d.table && r != order[|order| - 1] && forall x :: x in order ==> x in d.table
    ensures var before, after := FireAll(d, order[..|order| - 1], now, fates), FireAll(d, order, now, fates);
      && Announcements(after.rows, r) == Announcements(before.rows, r)
      && r in before.table && r in after.table && after.table[r] == before.table[r]
  {
    var n := |order| - 1;
    PassKeepsEntries(d, order[..n], now, fates, order[n]);
    PassKeepsEntries(d, order[..n], now, fates, r);
    OthersAreLeftAlone(FireAll(d, order[..n], now, fates), order[n], now, fates(n), r);
  }

  lemma OthersAreLeftAlone(d: Desk, x: int, now: real, f: Fate, r: int)
    requires x in d.table && r in d.table && x != r
    ensures var after := FireOne(d, x, now, f);
      Announcements(after.rows, r) == Announcements(d.rows, r) && r in after.table && after.table[r] == d.table[r]
  {
    FireOneAnnounces(d, x, now, f, r);
  }

  /** Once its mark has succeeded, a reminder is on no later list and no later pass announces it again. */
  lemma MarkedIsSilent(d: Desk, first: seq<int>, now: real, fates: nat -> Fate, k: nat,
                       rows: Rows, second: seq<int>, later: real, next: nat -> Fate)
    requires Lists(first, d.table) && k < |first| && first[k] in d.table && GoesOut(d.table[first[k]], now, fates(k)) && fates(k).marks
    requires Lists(second, FireAll(d, first, now, fates).table)
    ensures first[k] !in second
    ensures Announcements(FireAll(Desk(FireAll(d, first, now, fates).table, rows), second, later, next).rows, first[k])
         == Announcements(rows, first[k])
  {
    PassAnnounces(d, first, now, fates, k);
    PassSkips(Desk(FireAll(d, first, now, fates).table, rows), second, later, next, first[k]);
  }

  // ---- Acknowledgements ----

  datatype Action = Seen | Complete | Dismiss | Unknown

  /** Which writes and reads of an acknowledgement succeed. */
  datatype Luck = Luck(marks: bool, finds: bool, writes: bool)

  /** The reminder that acting on this push completes. */
  function CompletedBy(row: Row, action: Action): Option<int> {
    if action.Complete? && row.kind.Reminder? && "reminder_id" in row.ref && row.ref["reminder_id"].Number?
    then Some(row.ref["reminder_id"].n) else None
  }

  /** The self-review note it retires, under either verb. */
  function RetiredBy(row: Row, action: Action): Option<int> {
    if (action.Complete? || action.Dismiss?) && row.kind.Reflection?
       && "reflection_id" in row.ref && row.ref["reflection_id"].Number?
    then Some(row.ref["reflection_id"].n) else None
  }

  function Target(rows: Rows, id: string, action: Action): Option<int> {
    if Holds(rows, id) then CompletedBy(rows[IndexOf(rows, id)], action) else None
  }

  function Retiree(rows: Rows, id: string, action: Action): Option<int> {
    if Holds(rows, id) then RetiredBy(rows[IndexOf(rows, id)], action) else None
  }

  function IndexOf(rows: Rows, id: string): (i: nat)
    requires Holds(rows, id)
    ensures i < |rows| && rows[i].id == id && forall j :: 0 <= j < i ==> rows[j].id != id
  {
    if rows[0].id == id then 0 else IndexOf(rows[1..], id) + 1
  }

  lemma FoundRow(rows: Rows, id: string, row: Row, action: Action)
    requires DistinctIds(rows) && row in Marked(rows, id) + rows && row.id == id
    ensures Holds(rows, id) && CompletedBy(row, action) == Target(rows, id, action) && RetiredBy(row, action) == Retiree(rows, id, action)
  {
    var m := Marked(rows, id);
    var k :| 0 <= k < |m + rows| && (m + rows)[k] == row;
    var i := if k < |m| then k else k - |m|;
    FoundAt(rows, id, i);
    SameDeed(row, rows[i], action);
  }

  lemma SameDeed(a: Row, b: Row, action: Action)
    requires a.kind == b.kind && a.ref == b.ref
    ensures CompletedBy(a, action) == CompletedBy(b, action) && RetiredBy(a, action) == RetiredBy(b, action)
  {
  }

  lemma FoundAt(rows: Rows, id: string, i: nat)
    requires DistinctIds(rows) && i < |rows| && rows[i].id == id
    ensures Holds(rows, id) && i == IndexOf(rows, id)
  {
  }

  lemma MarkedHolds(rows: Rows, id: string)
    ensures Holds(Marked(rows, id), id) == Holds(rows, id)
  {
    assert forall i :: 0 <= i < |rows| ==> Marked(rows, id)[i].id == rows[i].id;
  }

  /** `acknowledge`: any well-formed ack settles its push; only `complete` on a reminder goes further. */
  method Acknowledge(id: Option<string>, action: Action, store: ReminderStore, outbox: OutboxStore, luck: Luck)
      returns (retired: Option<int>)
    requires DistinctIds(outbox.rows)
    modifies store`table, outbox
    ensures outbox.rows == if WellFormed(id) && luck.marks then Marked(old(outbox.rows), id.value) else old(outbox.rows)
    ensures store.table == if WellFormed(id) && luck.finds && luck.writes
                           then CompletedIf(old(store.table), Target(old(outbox.rows), id.value, action))
                           else old(store.table)
    ensures retired == if WellFormed(id) && luck.finds && luck.writes
                       then Retiree(old(outbox.rows), id.value, action) else None
    ensures id == None || id == Some("") ==> outbox.rows == old(outbox.rows) && store.table == old(store.table) && retired == None
  {
    retired := None;
    if id == None || id.value == "" {
      return;
    }
    MarkedHolds(outbox.rows, id.value);
    if luck.marks {
      var _ := outbox.MarkPushDelivered(id.value);
    }
    if action != Complete && action != Dismiss {
      return;
    }
    if !luck.finds {
      return;
    }
    var found := outbox.GetPush(id.value);
    if found == None {
      return;
    }
    FoundRow(old(outbox.rows), id.value, found.value, action);
    retired := ActOn(found.value, action, store, luck.writes);
  }

  predicate WellFormed(id: Option<string>) { id.Some? && id.value != "" }

  function CompletedIf(table: Table, r: Option<int>): Table {
    if r == None then table else Completed(table, r.value)
  }

  /** The rest of an acknowledgement that does more than settle its push. */
  method ActOn(row: Row, action: Action, store: ReminderStore, writes: bool) returns (retired: Option<int>)
    requires action == Complete || action == Dismiss
    modifies store`table
    ensures store.table == if writes then CompletedIf(old(store.table), CompletedBy(row, action)) else old(store.table)
    ensures retired == if writes then RetiredBy(row, action) else None
  {
    if row.kind.Reflection? {
      if "reflection_id" in row.ref && row.ref["reflection_id"].Number? && writes {
        return Some(row.ref["reflection_id"].n);
      }
      return None;
    }
    if action != Complete {
      return None;
    }
    if !row.kind.Reminder? {
      return None;
    }
    if "reminder_id" in row.ref && row.ref["reminder_id"].Number? && writes {
      var _ := store.CompleteReminder(row.ref["reminder_id"].n);
    }
    return None;
  }

  /**
   An acknowledgement completes a reminder only as `complete`, on a push of kind reminder that
   refers to it by number: a peer's notice carrying the same `ref` completes nothing.
   */
  lemma OnlyItsOwnPushCompletes(rows: Rows, id: string, action: Action, r: int)
    requires DistinctIds(rows)
    ensures Target(rows, id, action) == Some(r)
       <==> action.Complete? && exists row :: row in rows && row.id == id && row.kind == Kind.Reminder
                                   && "reminder_id" in row.ref && row.ref["reminder_id"] == Number(r)
  {
    if Holds(rows, id) {
      var i := IndexOf(rows, id);
      assert rows[i] in rows;
      forall row | row in rows && row.id == id ensures row == rows[i] {
        var k :| 0 <= k < |rows| && rows[k] == row;
      }
    }
  }

  /** Either verb on a self-review card retires the note it refers to by number, and nothing else does. */
  lemma NoteIsRetiredIff(rows: Rows, id: string, action: Action, n: int)
    requires DistinctIds(rows)
    ensures Retiree(rows, id, action) == Some(n)
       <==> (action.Complete? || action.Dismiss?)
            && exists row :: row in rows && row.id == id && row.kind == Reflection
                             && "reflection_id" in row.ref && row.ref["reflection_id"] == Number(n)
  {
    if Holds(rows, id) {
      var i := IndexOf(rows, id);
      assert rows[i] in rows;
      forall row | row in rows && row.id == id ensures row == rows[i] {
        var k :| 0 <= k < |rows| && rows[k] == row;
      }
    }
  }

  /** What an acknowledgement that goes through leaves of the two tables, row by row. */
  lemma SettledBy(rows: Rows, id: string, table: Table, r: int, action: Action)
    requires DistinctIds(rows)
    ensures forall i :: 0 <= i < |rows| ==>
      Marked(rows, id)[i] == if rows[i].id == id && rows[i].status == Pending then rows[i].(status := Delivered) else rows[i]
    ensures r in CompletedIf(table, Target(rows, id, action)) <==> r in table
    ensures r in table ==>
              CompletedIf(table, Target(rows, id, action))[r]
                == (if Target(rows, id, action) == Some(r) then table[r].(done := true) else table[r])
  {
  }
}
