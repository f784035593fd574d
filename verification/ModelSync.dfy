/**
 `sync_once` of `app/model_sync.py`: push what is pending, pull the shared table, prune what
 has gone from it. Any request may fail, before or after the shared store has acted on it, and
 so may any local read or write after the last of them.
 */
module ModelSync {
  import opened Collections
  import opened Keywords
  import opened Wrappers

  /** What the shared table holds for a keyword; entries that are not objects are malformed. */
  datatype Entry = Malformed | Entry(model: string, description: string)

  type Remote = map<Keyword, Entry>

  /** How one request ends: answered and recorded here, applied without that, or not applied at all. */
  datatype Reply = Answered | LostAfter | Refused

  predicate Usable(k: Keyword, e: Entry) {
    e.Entry? && ValidKeyword(k) && ValidModel(e.model)
  }

  function Pending(t: Local): set<Keyword> {
    set k | k in t && !t[k].synced
  }

  /** The local table once the store has acknowledged the pushes of `done`. */
  function Settled(t: Local, done: set<Keyword>): Local {
    map k | k in t && !(k in done && t[k].model == "") :: if k in done then t[k].(synced := true) else t[k]
  }

  /** The shared table once it has applied the pushes of `sent`. */
  function Applied(r: Remote, t: Local, sent: set<Keyword>): Remote
    requires sent <= t.Keys
  {
    map k | k in r.Keys + sent && !(k in sent && t[k].model == "") ::
      if k in sent then Entry(t[k].model, t[k].description) else r[k]
  }

  /** Whether the pull takes the shared entry over what is here: it is usable, new, and not contested. */
  predicate Adopts(t: Local, r: Remote, k: Keyword) {
    k in r && Usable(k, r[k]) && !(k in t && (!t[k].synced || t[k].model == r[k].model))
  }

  /** The local table once the pull has been through `done`. */
  function Merged(t: Local, r: Remote, done: set<Keyword>): Local {
    map k | k in t.Keys + done && (k in t || Adopts(t, r, k)) ::
      if k in done && Adopts(t, r, k) then Row(r[k].model, r[k].description, true) else t[k]
  }

  /** Agreed on here, and no longer in the shared table. */
  predicate Gone(t: Local, r: Remote, k: Keyword) {
    k in t && t[k].synced && k !in r
  }

  function Pruned(t: Local, r: Remote, merged: Local, done: set<Keyword>): Local {
    map k | k in merged && !(k in done && Gone(t, r, k)) :: merged[k]
  }

  function Pulled(t: Local, r: Remote): Local {
    Pruned(t, r, Merged(t, r, r.Keys), t.Keys)
  }

  /** This install's table and the shared one. */
  datatype Tables = Tables(local: Local, remote: Remote)

  /** The tables after one pass in which every request is answered. */
  function FullPass(s: Tables): Tables {
    var r := Applied(s.remote, s.local, Pending(s.local));
    Tables(Pulled(Settled(s.local, Pending(s.local)), r), r)
  }

  /** The `/models` half of the shared store. */
  class SyncServer {
    var table: Remote

    constructor (table: Remote)
      ensures this.table == table
    {
      this.table := table;
    }

    method Put(k: Keyword, model: string, description: string, reply: Reply) returns (ok: bool)
      modifies this
      ensures ok == reply.Answered?
      ensures table == if reply.Refused? then old(table) else old(table)[k := Entry(model, description)]
    {
      if !reply.Refused? {
        table := table[k := Entry(model, description)];
      }
      ok := reply.Answered?;
    }

    /** A 404 for a keyword already gone counts as an answer. */
    method Delete(k: Keyword, reply: Reply) returns (ok: bool)
      modifies this
      ensures ok == reply.Answered?
      ensures table == if reply.Refused? then old(table) else old(table) - {k}
    {
      if !reply.Refused? {
        table := table - {k};
      }
      ok := reply.Answered?;
    }

    method Get(reply: Reply) returns (r: Option<Remote>)
      ensures r == if reply.Answered? then Some(table) else None
    {
      r := if reply.Answered? then Some(table) else None;
    }
  }

  datatype Report = Report(pushed: nat, removed: nat, pulled: nat, pruned: nat, ok: bool)

  /** The keywords of `ks` that are pushed as an entry, and those pushed as a removal. */
  function Puts(t: Local, ks: set<Keyword>): set<Keyword> { set k | k in ks && k in t && t[k].model != "" }

  function Removals(t: Local, ks: set<Keyword>): set<Keyword> { set k | k in ks && k in t && t[k].model == "" }

  function Adopted(t: Local, r: Remote, ks: set<Keyword>): set<Keyword> { set k | k in ks && Adopts(t, r, k) }

  function Vanished(t: Local, r: Remote, ks: set<Keyword>): set<Keyword> { set k | k in ks && Gone(t, r, k) }

  /** What a pass in which every request is answered reports. */
  function FullReport(s: Tables): Report {
    var settled, r := Settled(s.local, Pending(s.local)), Applied(s.remote, s.local, Pending(s.local));
    Report(|Puts(s.local, Pending(s.local))|, |Removals(s.local, Pending(s.local))|,
           |Adopted(settled, r, r.Keys)|, |Vanished(settled, r, settled.Keys)|, true)
  }

  /** The local table `t` once the pull has been through `done` and the drops through `gone`. */
  function Part(t: Local, r: Remote, done: set<Keyword>, gone: set<Keyword>): Local {
    Pruned(t, r, Merged(t, r, done), gone)
  }

  /** A pass over `s` whose requests were all answered, and which a failed local access then cut short. */
  ghost predicate Torn(s: Tables, s': Tables, done: set<Keyword>, gone: set<Keyword>) {
    var t, r := Settled(s.local, Pending(s.local)), Applied(s.remote, s.local, Pending(s.local));
    done <= r.Keys && gone <= t.Keys && (gone == {} || done == r.Keys) && s' == Tables(Part(t, r, done, gone), r)
  }

  /** Whether the local table can be read after the last request, and which of the writes that follow succeed. */
  datatype Disk = Disk(lists: bool, writes: nat -> bool)

  ghost predicate Serves(disk: Disk, n: nat) {
    disk.lists && Lasts(disk.writes, 0, n)
  }

  /** The writes from the `start`-th on, up to the `stop`-th, succeed. */
  ghost predicate Lasts(writes: nat -> bool, start: nat, stop: nat) {
    forall n :: start <= n < stop ==> writes(n)
  }

  lemma LastsOneMore(writes: nat -> bool, start: nat, stop: nat)
    requires start <= stop && Lasts(writes, start, stop)
    ensures writes(stop) ==> Lasts(writes, start, stop + 1)
  {
  }

  /** A pass over `s` whose pushes of `done` were acknowledged and of `sent` were applied. */
  function Halfway(s: Tables, done: set<Keyword>, sent: set<Keyword>): Tables
    requires sent <= s.local.Keys
  {
    Tables(Settled(s.local, done), Applied(s.remote, s.local, sent))
  }

  /** A pass that stopped at some request: at most one push was applied without being acknowledged. */
  ghost predicate Stopped(s: Tables, s': Tables) {
    exists done: set<Keyword>, sent: set<Keyword> ::
      done <= sent <= Pending(s.local) && |sent - done| <= 1 && s' == Halfway(s, done, sent)
  }

  lemma StoppedAt(s: Tables, done: set<Keyword>, sent: set<Keyword>)
    requires done <= sent <= Pending(s.local) && |sent - done| <= 1
    ensures Stopped(s, Halfway(s, done, sent))
  {
  }

  /** The shared table once it has applied the push of one row. */
  function Shared(r: Remote, k: Keyword, row: Row): Remote {
    if row.model == "" then r - {k} else r[k := Entry(row.model, row.description)]
  }

  function Acknowledged(t: Local, k: Keyword, row: Row): Local {
    if row.model == "" then t - {k} else MarkRow(t, k)
  }

  lemma PushStep(s: Tables, done: set<Keyword>, k: Keyword)
    requires done <= Pending(s.local) && k in Pending(s.local) - done
    ensures var row, before := s.local[k], Halfway(s, done, done);
            Halfway(s, done + {k}, done + {k}) == Tables(Acknowledged(before.local, k, row), Shared(before.remote, k, row))
    ensures Halfway(s, done, done + {k}) == Tables(Settled(s.local, done), Halfway(s, done + {k}, done + {k}).remote)
  {
    SettleOne(s.local, done, k);
    ApplyOne(s.remote, s.local, done, k);
  }

  lemma SettleOne(t: Local, done: set<Keyword>, k: Keyword)
    requires k in t && k !in done
    ensures Settled(t, done + {k}) == if t[k].model == "" then Settled(t, done) - {k} else MarkRow(Settled(t, done), k)
  {
    assert k in Settled(t, done);
  }

  lemma ApplyOne(r: Remote, t: Local, sent: set<Keyword>, k: Keyword)
    requires sent <= t.Keys && k in t && k !in sent
    ensures Applied(r, t, sent + {k})
         == if t[k].model == "" then Applied(r, t, sent) - {k} else Applied(r, t, sent)[k := Entry(t[k].model, t[k].description)]
  {
  }

  /** One request of the push loop, and the local write that follows an answer. */
  method PushOne(store: KeywordStore, server: SyncServer, k: Keyword, row: Row, reply: Reply) returns (ok: bool)
    modifies store, server
    ensures ok == reply.Answered?
    ensures store.rows == if ok then Acknowledged(old(store.rows), k, row) else old(store.rows)
    ensures server.table == if reply.Refused? then old(server.table) else Shared(old(server.table), k, row)
  {
    if row.model != "" {
      ok := server.Put(k, row.model, row.description, reply);
      if ok { store.MarkModelKeywordSynced(k); }
    } else {
      ok := server.Delete(k, reply);
      if ok { store.DropModelKeyword(k); }
    }
  }

  /** The push loop; `net` says how each request in turn ends. */
  method Push(store: KeywordStore, server: SyncServer, net: nat -> Reply)
      returns (ok: bool, pushed: nat, removed: nat)
    modifies store, server
    ensures var s := Tables(old(store.rows), old(server.table));
            if ok then Tables(store.rows, server.table) == Halfway(s, Pending(s.local), Pending(s.local))
                       && pushed == |Puts(s.local, Pending(s.local))| && removed == |Removals(s.local, Pending(s.local))|
            else Stopped(s, Tables(store.rows, server.table))
    ensures (forall n :: net(n).Answered?) ==> ok
  {
    var pending := store.ModelKeywords(Some(true));
    var todo := pending.Keys;
    ghost var s := Tables(store.rows, server.table);
    ok, pushed, removed := true, 0, 0;
    assert todo == Pending(s.local);
    SentOutEnds(s);
    var requests := 0;
    while todo != {}
      invariant ok && todo <= Pending(s.local)
      invariant SentOut(s, Tables(store.rows, server.table), todo, pushed, removed)
      decreases |todo|
    {
      var k :| k in todo;
      SentOutStep(s, Tables(store.rows, server.table), todo, k, pushed, removed);
      SentOutStops(s, Tables(store.rows, server.table), todo, k, pushed, removed);
      ok := PushOne(store, server, k, pending[k], net(requests));
      if !ok {
        return;
      }
      if pending[k].model != "" { pushed := pushed + 1; } else { removed := removed + 1; }
      todo := todo - {k};
      requests := requests + 1;
    }
  }

  /** The tables and the counts with all but `todo` pushed and acknowledged. */
  ghost predicate SentOut(s: Tables, now: Tables, todo: set<Keyword>, pushed: nat, removed: nat)
    requires todo <= Pending(s.local)
  {
    var done := Pending(s.local) - todo;
    now == Left(s, todo) && pushed == |Puts(s.local, done)| && removed == |Removals(s.local, done)|
  }

  lemma SentOutEnds(s: Tables)
    ensures SentOut(s, s, Pending(s.local), 0, 0)
    ensures forall now: Tables, pushed: nat, removed: nat :: SentOut(s, now, {}, pushed, removed) ==>
              && now == Halfway(s, Pending(s.local), Pending(s.local))
              && pushed == |Puts(s.local, Pending(s.local))| && removed == |Removals(s.local, Pending(s.local))|
  {
    HalfwayEnds(s);
    var none := Pending(s.local) - Pending(s.local);
    assert none == {} && Puts(s.local, none) == {} && Removals(s.local, none) == {};
  }

  lemma SentOutStep(s: Tables, now: Tables, todo: set<Keyword>, k: Keyword, pushed: nat, removed: nat)
    requires k in todo && todo <= Pending(s.local) && SentOut(s, now, todo, pushed, removed)
    ensures var row := s.local[k];
      SentOut(s, Tables(Acknowledged(now.local, k, row), Shared(now.remote, k, row)), todo - {k},
              if row.model == "" then pushed else pushed + 1, if row.model == "" then removed + 1 else removed)
  {
    LeftNext(s, todo, k);
    OneMorePushed(s.local, Pending(s.local), todo, k);
  }

  lemma LeftNext(s: Tables, todo: set<Keyword>, k: Keyword)
    requires k in todo && todo <= Pending(s.local)
    ensures Left(s, todo - {k})
         == Tables(Acknowledged(Left(s, todo).local, k, s.local[k]), Shared(Left(s, todo).remote, k, s.local[k]))
  {
    LeftStep(s, todo, k);
  }

  /** Wherever the request for `k` fails, the pass is one that stopped. */
  lemma SentOutStops(s: Tables, now: Tables, todo: set<Keyword>, k: Keyword, pushed: nat, removed: nat)
    requires k in todo && todo <= Pending(s.local) && SentOut(s, now, todo, pushed, removed)
    ensures Stopped(s, now) && Stopped(s, Tables(now.local, Shared(now.remote, k, s.local[k])))
  {
    LeftStep(s, todo, k);
  }

  lemma OneMorePushed(t: Local, all: set<Keyword>, todo: set<Keyword>, k: Keyword)
    requires k in todo && todo <= all <= t.Keys
    ensures |Puts(t, all - (todo - {k}))| == |Puts(t, all - todo)| + if t[k].model != "" then 1 else 0
    ensures |Removals(t, all - (todo - {k}))| == |Removals(t, all - todo)| + if t[k].model == "" then 1 else 0
  {
    assert all - (todo - {k}) == all - todo + {k};
    PutsGrow(t, all - todo, k);
    RemovalsGrow(t, all - todo, k);
  }

  lemma PutsGrow(t: Local, ks: set<Keyword>, k: Keyword)
    requires k in t && k !in ks
    ensures |Puts(t, ks + {k})| == |Puts(t, ks)| + if t[k].model != "" then 1 else 0
  {
    assert Puts(t, ks + {k}) == if t[k].model != "" then Puts(t, ks) + {k} else Puts(t, ks);
  }

  lemma RemovalsGrow(t: Local, ks: set<Keyword>, k: Keyword)
    requires k in t && k !in ks
    ensures |Removals(t, ks + {k})| == |Removals(t, ks)| + if t[k].model == "" then 1 else 0
  {
    assert Removals(t, ks + {k}) == if t[k].model == "" then Removals(t, ks) + {k} else Removals(t, ks);
  }

  /** The pass with all but `todo` pushed and acknowledged. */
  ghost function Left(s: Tables, todo: set<Keyword>): Tables
    requires todo <= Pending(s.local)
  {
    Halfway(s, Pending(s.local) - todo, Pending(s.local) - todo)
  }

  lemma HalfwayEnds(s: Tables)
    ensures Left(s, Pending(s.local)) == s
    ensures Pending(s.local) - {} == Pending(s.local)
  {
    assert Left(s, Pending(s.local)).local == s.local;
    assert Left(s, Pending(s.local)).remote == s.remote;
  }

  lemma LeftStep(s: Tables, todo: set<Keyword>, k: Keyword)
    requires k in todo && todo <= Pending(s.local)
    ensures var row, before := s.local[k], Left(s, todo);
            var remote := Shared(before.remote, k, row);
            && Left(s, todo - {k}) == Tables(Acknowledged(before.local, k, row), remote)
            && Stopped(s, before) && Stopped(s, Tables(before.local, remote))
  {
    var done := Pending(s.local) - todo;
    assert Pending(s.local) - (todo - {k}) == done + {k};
    PushStep(s, done, k);
    StoppedAround(s, done, k);
  }

  lemma StoppedAround(s: Tables, done: set<Keyword>, k: Keyword)
    requires done <= Pending(s.local) && k in Pending(s.local) - done
    ensures Stopped(s, Halfway(s, done, done)) && Stopped(s, Halfway(s, done, done + {k}))
  {
    assert (done + {k}) - done == {k} && done - done == {};
    StoppedAt(s, done, done);
    StoppedAt(s, done, done + {k});
  }

  /** The pull loop; a write that fails ends the pass with what has been adopted so far. */
  method Pull(store: KeywordStore, local: Local, remote: Remote, writes: nat -> bool)
      returns (pulled: nat, raised: bool, ghost done: set<Keyword>)
    requires store.rows == local
    modifies store
    ensures done <= remote.Keys && (!raised ==> done == remote.Keys)
    ensures TakenIn(store.rows, local, remote, done, pulled)
    ensures Lasts(writes, 0, pulled)
    ensures raised ==> pulled < |Adopted(local, remote, remote.Keys)| && !writes(pulled)
  {
    pulled, raised := 0, false;
    var todo := remote.Keys;
    TakenInFrom(local, remote);
    while todo != {}
      invariant todo <= remote.Keys && !raised && Lasts(writes, 0, pulled)
      invariant TakenIn(store.rows, local, remote, remote.Keys - todo, pulled)
      decreases |todo|
    {
      var k :| k in todo;
      TakenInStep(store.rows, local, remote, todo, k, pulled);
      var adopted, luck := false, writes(pulled);
      LastsOneMore(writes, 0, pulled);
      adopted, raised := PullOne(store, local, remote, k, luck);
      if raised {
        done := remote.Keys - todo;
        return;
      }
      todo := todo - {k};
      if adopted { pulled := pulled + 1; }
    }
    done := remote.Keys;
    assert remote.Keys - todo == remote.Keys;
  }

  method PullOne(store: KeywordStore, local: Local, remote: Remote, k: Keyword, writes: bool) returns (adopted: bool, raised: bool)
    requires k in remote
    modifies store
    ensures adopted == (Adopts(local, remote, k) && writes) && raised == (Adopts(local, remote, k) && !writes)
    ensures store.rows == if adopted then old(store.rows)[k := Row(remote[k].model, remote[k].description, true)]
                          else old(store.rows)
  {
    var entry := remote[k];
    if !Usable(k, entry) {
      return false, false;
    }
    if k in local && (!local[k].synced || local[k].model == entry.model) {
      return false, false;
    }
    if !writes {
      return false, true;
    }
    store.SetModelKeyword(k, entry.model, Some(entry.description), true);
    return true, false;
  }

  /** The store and the count once the pull has been through `done`. */
  ghost predicate TakenIn(rows: Local, t: Local, r: Remote, done: set<Keyword>, pulled: nat) {
    rows == Merged(t, r, done) && pulled == |Adopted(t, r, done)|
  }

  lemma TakenInStep(rows: Local, t: Local, r: Remote, todo: set<Keyword>, k: Keyword, pulled: nat)
    requires k in todo && todo <= r.Keys && TakenIn(rows, t, r, r.Keys - todo, pulled)
    ensures if Adopts(t, r, k)
            then TakenIn(rows[k := Row(r[k].model, r[k].description, true)], t, r, r.Keys - (todo - {k}), pulled + 1)
                 && pulled < |Adopted(t, r, r.Keys)|
            else TakenIn(rows, t, r, r.Keys - (todo - {k}), pulled)
  {
    MergeStep(t, r, todo, k);
    if Adopts(t, r, k) {
      MoreToAdopt(t, r, todo, k);
    }
  }

  lemma TakenInFrom(t: Local, r: Remote)
    ensures TakenIn(t, t, r, r.Keys - r.Keys, 0)
  {
    MergeEnds(t, r);
    assert Adopted(t, r, r.Keys - r.Keys) == {};
  }

  lemma MoreToAdopt(t: Local, r: Remote, todo: set<Keyword>, k: Keyword)
    requires k in todo && todo <= r.Keys && Adopts(t, r, k)
    ensures |Adopted(t, r, r.Keys - todo)| < |Adopted(t, r, r.Keys)|
  {
    assert k in Adopted(t, r, r.Keys) && k !in Adopted(t, r, r.Keys - todo);
    Shrinks(Adopted(t, r, r.Keys - todo), Adopted(t, r, r.Keys));
  }

  lemma MoreToDrop(t: Local, r: Remote, todo: set<Keyword>, k: Keyword)
    requires k in todo && todo <= t.Keys && Gone(t, r, k)
    ensures |Vanished(t, r, t.Keys - todo)| < |Vanished(t, r, t.Keys)|
  {
    assert k in Vanished(t, r, t.Keys) && k !in Vanished(t, r, t.Keys - todo);
    Shrinks(Vanished(t, r, t.Keys - todo), Vanished(t, r, t.Keys));
  }

  lemma MergeEnds(t: Local, r: Remote)
    ensures Merged(t, r, r.Keys - r.Keys) == t
    ensures r.Keys - {} == r.Keys
  {
  }

  lemma MergeStep(t: Local, r: Remote, todo: set<Keyword>, k: Keyword)
    requires k in todo && todo <= r.Keys
    ensures Merged(t, r, r.Keys - (todo - {k})) ==
              if Adopts(t, r, k) then Merged(t, r, r.Keys - todo)[k := Row(r[k].model, r[k].description, true)]
              else Merged(t, r, r.Keys - todo)
    ensures |Adopted(t, r, r.Keys - (todo - {k}))| == |Adopted(t, r, r.Keys - todo)| + if Adopts(t, r, k) then 1 else 0
  {
    assert r.Keys - (todo - {k}) == r.Keys - todo + {k};
    MergeOne(t, r, r.Keys - todo, k);
    AdoptedGrow(t, r, r.Keys - todo, k);
  }

  lemma MergeOne(t: Local, r: Remote, done: set<Keyword>, k: Keyword)
    requires k in r && k !in done
    ensures Merged(t, r, done + {k})
         == if Adopts(t, r, k) then Merged(t, r, done)[k := Row(r[k].model, r[k].description, true)] else Merged(t, r, done)
  {
    var after := if Adopts(t, r, k) then Merged(t, r, done)[k := Row(r[k].model, r[k].description, true)] else Merged(t, r, done);
    forall x ensures x in Merged(t, r, done + {k}) <==> x in after
             ensures x in after ==> Merged(t, r, done + {k})[x] == after[x]
    {
      MergedAt(t, r, done, x);
      MergedAt(t, r, done + {k}, x);
    }
    SameMap(Merged(t, r, done + {k}), after);
  }

  lemma MergedAt(t: Local, r: Remote, done: set<Keyword>, x: Keyword)
    ensures x in Merged(t, r, done) <==> x in t || (x in done && Adopts(t, r, x))
    ensures x in Merged(t, r, done)
        ==> Merged(t, r, done)[x] == if x in done && Adopts(t, r, x) then Row(r[x].model, r[x].description, true) else t[x]
  {
  }

  lemma AdoptedGrow(t: Local, r: Remote, ks: set<Keyword>, k: Keyword)
    requires k !in ks
    ensures |Adopted(t, r, ks + {k})| == |Adopted(t, r, ks)| + if Adopts(t, r, k) then 1 else 0
  {
    assert Adopted(t, r, ks + {k}) == if Adopts(t, r, k) then Adopted(t, r, ks) + {k} else Adopted(t, r, ks);
  }

  lemma SameMap<K, V>(a: map<K, V>, b: map<K, V>)
    requires forall k :: k in a <==> k in b
    requires forall k :: k in b ==> a[k] == b[k]
    ensures a == b
  {
  }

  /** The drops; the pass has made `start` writes before. */
  method Prune(store: KeywordStore, local: Local, remote: Remote, start: nat, writes: nat -> bool)
      returns (pruned: nat, raised: bool, ghost gone: set<Keyword>)
    modifies store
    ensures gone <= local.Keys && (!raised ==> gone == local.Keys)
    ensures store.rows == Pruned(local, remote, old(store.rows), gone) && pruned == |Vanished(local, remote, gone)|
    ensures Lasts(writes, start, start + pruned)
    ensures raised ==> pruned < |Vanished(local, remote, local.Keys)| && !writes(start + pruned)
  {
    pruned, raised := 0, false;
    var rest := local.Keys;
    assert store.rows == Pruned(local, remote, old(store.rows), {});
    assert local.Keys - rest == {} && Vanished(local, remote, {}) == {};
    while rest != {}
      invariant rest <= local.Keys && !raised && Lasts(writes, start, start + pruned)
      invariant store.rows == Pruned(local, remote, old(store.rows), local.Keys - rest)
      invariant pruned == |Vanished(local, remote, local.Keys - rest)|
      decreases |rest|
    {
      var k :| k in rest;
      assert local.Keys - (rest - {k}) == local.Keys - rest + {k};
      PruneStep(local, remote, old(store.rows), local.Keys - rest, k);
      if local[k].synced && k !in remote {
        LastsOneMore(writes, start, start + pruned);
        if !writes(start + pruned) {
          raised, gone := true, local.Keys - rest;
          MoreToDrop(local, remote, rest, k);
          return;
        }
        store.DropModelKeyword(k);
        pruned := pruned + 1;
      }
      rest := rest - {k};
    }
    assert local.Keys - rest == local.Keys;
    gone := local.Keys;
  }

  lemma PruneStep(t: Local, r: Remote, merged: Local, done: set<Keyword>, k: Keyword)
    ensures Pruned(t, r, merged, done + {k}) ==
              if Gone(t, r, k) then Pruned(t, r, merged, done) - {k} else Pruned(t, r, merged, done)
    ensures k !in done ==> |Vanished(t, r, done + {k})| == |Vanished(t, r, done)| + if Gone(t, r, k) then 1 else 0
  {
    assert Vanished(t, r, done + {k}) == if Gone(t, r, k) then Vanished(t, r, done) + {k} else Vanished(t, r, done);
  }

  /** How many local writes the pull and the drops of a pass over `s` make. */
  function Writes(s: Tables): nat { FullReport(s).pulled + FullReport(s).pruned }

  /** The ways the pull and the drops can end, told as what the pass has made of the tables it started from. */
  lemma TornWays(s: Tables, done: set<Keyword>, gone: set<Keyword>)
    requires var all := Halfway(s, Pending(s.local), Pending(s.local));
      done <= all.remote.Keys && gone <= all.local.Keys && (gone == {} || done == all.remote.Keys)
    ensures var all := Halfway(s, Pending(s.local), Pending(s.local));
      && Torn(s, Tables(Part(all.local, all.remote, done, gone), all.remote), done, gone)
      && ((done == all.remote.Keys && gone == all.local.Keys)
            ==> Tables(Part(all.local, all.remote, done, gone), all.remote) == FullPass(s))
  {
  }

  lemma NothingDropped(t: Local, r: Remote, merged: Local)
    ensures Pruned(t, r, merged, {}) == merged
    ensures Merged(t, r, {}) == t
  {
  }

  method PullAndPrune(store: KeywordStore, local: Local, remote: Remote, writes: nat -> bool)
      returns (pulled: nat, pruned: nat, raised: bool, ghost done: set<Keyword>, ghost gone: set<Keyword>)
    requires store.rows == local
    modifies store
    ensures done <= remote.Keys && gone <= local.Keys && (gone == {} || done == remote.Keys)
    ensures store.rows == Part(local, remote, done, gone)
    ensures raised == !Lasts(writes, 0, |Adopted(local, remote, remote.Keys)| + |Vanished(local, remote, local.Keys)|)
    ensures !raised ==> done == remote.Keys && gone == local.Keys
    ensures !raised ==> pulled == |Adopted(local, remote, remote.Keys)| && pruned == |Vanished(local, remote, local.Keys)|
  {
    pruned, gone := 0, {};
    pulled, raised, done := Pull(store, local, remote, writes);
    if raised {
      NothingDropped(local, remote, store.rows);
      return;
    }
    pruned, raised, gone := Prune(store, local, remote, pulled, writes);
  }

  /** The pull and the drops of a pass over `s` whose requests have all been answered. */
  method TakeOver(store: KeywordStore, remote: Remote, disk: Disk, ghost s: Tables)
      returns (pulled: nat, pruned: nat, raised: bool, ghost done: set<Keyword>, ghost gone: set<Keyword>)
    requires Tables(store.rows, remote) == Halfway(s, Pending(s.local), Pending(s.local))
    modifies store
    ensures Torn(s, Tables(store.rows, remote), done, gone) && raised == !Serves(disk, Writes(s))
    ensures !raised ==> Tables(store.rows, remote) == FullPass(s) && pulled == FullReport(s).pulled && pruned == FullReport(s).pruned
  {
    pulled, pruned, raised, done, gone := 0, 0, true, {}, {};
    NothingDropped(store.rows, remote, store.rows);
    if disk.lists {
      var local := store.ModelKeywords(None);
      assert local == store.rows;
      pulled, pruned, raised, done, gone := PullAndPrune(store, local, remote, disk.writes);
    }
    TornWays(s, done, gone);
  }

  /** The three phases over the tables alone. */
  method Exchange(store: KeywordStore, server: SyncServer, net: nat -> Reply, fetch: Reply, disk: Disk)
      returns (report: Report, raised: bool, ghost done: set<Keyword>, ghost gone: set<Keyword>)
    modifies store, server
    ensures var s, s' := Tables(old(store.rows), old(server.table)), Tables(store.rows, server.table);
            && (if raised then Torn(s, s', done, gone)
                else if report.ok then s' == FullPass(s) && report == FullReport(s)
                else Stopped(s, s'))
            && (report.ok ==> !raised && Serves(disk, Writes(s)))
            && (raised ==> !Serves(disk, Writes(s)))
    ensures fetch.Answered? && (forall n :: net(n).Answered?) ==> report.ok || raised
  {
    ghost var s := Tables(store.rows, server.table);
    var ok, pushed, removed := Push(store, server, net);
    report, raised, done, gone := Report(pushed, removed, 0, 0, false), false, {}, {};
    if !ok {
      return;
    }
    var remote := server.Get(fetch);
    if remote == None {
      StoppedAtFetch(s);
      return;
    }
    var pulled, pruned;
    pulled, pruned, raised, done, gone := TakeOver(store, remote.value, disk, s);
    if !raised {
      report := Report(pushed, removed, pulled, pruned, true);
    }
  }

  /**
   What each counter counts: pending rows with a model, pending rows without one, entries taken
   over, and shared rows the store no longer has.
   */
  ghost predicate Counts(s: Tables, report: Report) {
    var t, r := Settled(s.local, Pending(s.local)), Applied(s.remote, s.local, Pending(s.local));
    && report.pushed == |set k | k in s.local && !s.local[k].synced && s.local[k].model != ""|
    && report.removed == |set k | k in s.local && !s.local[k].synced && s.local[k].model == ""|
    && report.pulled == |set k | k in r && r[k].Entry? && ValidKeyword(k) && ValidModel(r[k].model)
                                && (k in t ==> t[k].synced && t[k].model != r[k].model)|
    && report.pruned == |set k | k in t && t[k].synced && k !in r|
  }

  lemma ReportCounts(s: Tables)
    ensures Counts(s, FullReport(s))
  {
    var t, r := Settled(s.local, Pending(s.local)), Applied(s.remote, s.local, Pending(s.local));
    assert Puts(s.local, Pending(s.local)) == set k | k in s.local && !s.local[k].synced && s.local[k].model != "";
    assert Removals(s.local, Pending(s.local)) == set k | k in s.local && !s.local[k].synced && s.local[k].model == "";
    assert Adopted(t, r, r.Keys) == set k | k in r && r[k].Entry? && ValidKeyword(k) && ValidModel(r[k].model)
                                            && (k in t ==> t[k].synced && t[k].model != r[k].model);
    assert Vanished(t, r, t.Keys) == set k | k in t && t[k].synced && k !in r;
  }

  /** Nothing has been adopted, and no row dropped that meant anything. */
  ghost predicate NothingShows(s: Tables, done: set<Keyword>, gone: set<Keyword>) {
    var t, r := Settled(s.local, Pending(s.local)), Applied(s.remote, s.local, Pending(s.local));
    Adopted(t, r, done) == {} && forall k :: k in Vanished(t, r, gone) ==> k !in Effective(t)
  }

  /**
   One pass. When a local read or write fails after the last request it raises, and the cache,
   which is then not dropped, is stale exactly if it was loaded and something shows.
   */
  method SyncOnce(enabled: bool, catalogue: Catalogue, server: SyncServer, net: nat -> Reply, fetch: Reply, disk: Disk)
      returns (report: Report, raised: bool, ghost done: set<Keyword>, ghost gone: set<Keyword>)
    requires catalogue.Coherent()
    modifies catalogue, catalogue.store, server
    ensures var s := Tables(old(catalogue.store.rows), old(server.table));
            var s' := Tables(catalogue.store.rows, server.table);
            && (if raised then Torn(s, s', done, gone) && catalogue.cache == old(catalogue.cache)
                else if report.ok then s' == FullPass(s) && report == FullReport(s) && catalogue.cache == None
                else if enabled then Stopped(s, s') else s' == s)
            && (catalogue.Coherent() <==> !raised || catalogue.cache == None || NothingShows(s, done, gone))
            && (report.ok ==> Counts(s, report))
            && (report.ok ==> enabled && !raised && Serves(disk, Writes(s)))
            && (raised ==> enabled && !Serves(disk, Writes(s)))
    ensures enabled && fetch.Answered? && (forall n :: net(n).Answered?) ==> report.ok || raised
  {
    report, raised, done, gone := Report(0, 0, 0, 0, false), false, {}, {};
    if !enabled {
      return;
    }
    ghost var s := Tables(catalogue.store.rows, server.table);
    report, raised, done, gone := Exchange(catalogue.store, server, net, fetch, disk);
    if raised {
      TornShowsIff(s, Tables(catalogue.store.rows, server.table), done, gone);
    } else if report.ok {
      ReportCounts(s);
      catalogue.Invalidate();
    } else {
      StoppedKeepsMeaning(s, Tables(catalogue.store.rows, server.table));
    }
  }

  // ---- What a pass means ----

  lemma StoppedAtFetch(s: Tables)
    ensures Stopped(s, Halfway(s, Pending(s.local), Pending(s.local)))
  {
    var all := Pending(s.local);
    assert all - all == {};
  }

  /** Acknowledged pushes change no meaning: tombstones meant nothing already. */
  lemma SettledMeansTheSame(t: Local, done: set<Keyword>)
    ensures Effective(Settled(t, done)) == Effective(t)
  {
    EmptyIsNoModel();
  }

  /** However a pass was cut short, every mapping is as it was. */
  lemma StoppedKeepsMeaning(s: Tables, s': Tables)
    requires Stopped(s, s')
    ensures Effective(s'.local) == Effective(s.local)
  {
    var done: set<Keyword>, sent: set<Keyword> :|
      done <= sent <= Pending(s.local) && |sent - done| <= 1 && s' == Halfway(s, done, sent);
    SettledMeansTheSame(s.local, done);
  }

  lemma PartAt(t: Local, r: Remote, done: set<Keyword>, gone: set<Keyword>, k: Keyword)
    ensures k in Part(t, r, done, gone) <==> (k in t || k in Adopted(t, r, done)) && k !in Vanished(t, r, gone)
    ensures k in Part(t, r, done, gone)
        ==> Part(t, r, done, gone)[k] == if k in Adopted(t, r, done) then Row(r[k].model, r[k].description, true) else t[k]
  {
  }

  /** Part of a pull and of the drops leaves the meaning as it was exactly if it has changed nothing that meant something. */
  lemma PartShowsIff(t: Local, r: Remote, done: set<Keyword>, gone: set<Keyword>)
    ensures Effective(Part(t, r, done, gone)) == Effective(t)
       <==> Adopted(t, r, done) == {} && forall k :: k in Vanished(t, r, gone) ==> k !in Effective(t)
  {
    var was, now := Effective(t), Effective(Part(t, r, done, gone));
    if k :| k in Adopted(t, r, done) {
      PartAt(t, r, done, gone, k);
      assert k in now && now[k] == r[k].model;
    } else if k :| k in Vanished(t, r, gone) && k in Effective(t) {
      PartAt(t, r, done, gone, k);
      assert k !in now;
    } else {
      forall k ensures (k in now <==> k in was) && (k in now ==> now[k] == was[k]) {
        PartAt(t, r, done, gone, k);
      }
      SameMap(now, was);
    }
  }

  lemma TornShowsIff(s: Tables, s': Tables, done: set<Keyword>, gone: set<Keyword>)
    requires Torn(s, s', done, gone)
    ensures Effective(s'.local) == Effective(s.local) <==> NothingShows(s, done, gone)
  {
    SettledMeansTheSame(s.local, Pending(s.local));
    PartShowsIff(Settled(s.local, Pending(s.local)), Applied(s.remote, s.local, Pending(s.local)), done, gone);
  }

  /** Every edit still pending is as it was made, and one that is not shows in the shared table. */
  lemma StoppedKeepsEdits(s: Tables, s': Tables)
    requires Stopped(s, s')
    ensures Pending(s'.local) <= Pending(s.local)
    ensures forall k :: k in Pending(s'.local) ==> s'.local[k] == s.local[k]
    ensures forall k :: k in Pending(s.local) - Pending(s'.local) ==>
              if s.local[k].model == "" then k !in s'.remote
              else k in s'.remote && s'.remote[k] == Entry(s.local[k].model, s.local[k].description)
  {
  }

  lemma SettledTwice(t: Local, done: set<Keyword>)
    requires done <= Pending(t)
    ensures Pending(Settled(t, done)) == Pending(t) - done
    ensures Settled(Settled(t, done), Pending(t) - done) == Settled(t, Pending(t))
  {
  }

  lemma AppliedTwice(r: Remote, t: Local, done: set<Keyword>, sent: set<Keyword>)
    requires done <= sent <= Pending(t)
    ensures Applied(Applied(r, t, sent), Settled(t, done), Pending(t) - done) == Applied(r, t, Pending(t))
  {
    assert Pending(t) - done <= Settled(t, done).Keys;
  }

  /** Retrying after an abort ends exactly where an uninterrupted pass would have. */
  lemma RetryIsFullPass(s: Tables, s': Tables)
    requires Stopped(s, s')
    ensures FullPass(s') == FullPass(s)
  {
    var done: set<Keyword>, sent: set<Keyword> :|
      done <= sent <= Pending(s.local) && |sent - done| <= 1 && s' == Halfway(s, done, sent);
    SettledTwice(s.local, done);
    AppliedTwice(s.remote, s.local, done, sent);
  }

  /** Taking over a table that has been taken over in part already gives the same as all at once. */
  lemma PartThenWhole(t: Local, r: Remote, done: set<Keyword>, gone: set<Keyword>)
    requires done <= r.Keys && gone <= t.Keys
    ensures Pulled(Part(t, r, done, gone), r) == Pulled(t, r)
  {
    var part := Part(t, r, done, gone);
    forall k ensures (k in Pulled(part, r) <==> k in Pulled(t, r)) && (k in Pulled(t, r) ==> Pulled(part, r)[k] == Pulled(t, r)[k]) {
      PartAt(t, r, done, gone, k);
      PartAt(t, r, r.Keys, t.Keys, k);
      PartAt(part, r, r.Keys, part.Keys, k);
    }
    SameMap(Pulled(part, r), Pulled(t, r));
  }

  /** So does a retry after a failed local write. */
  lemma TornRetryIsFullPass(s: Tables, s': Tables, done: set<Keyword>, gone: set<Keyword>)
    requires Torn(s, s', done, gone)
    ensures FullPass(s') == FullPass(s)
  {
    var t, r := Settled(s.local, Pending(s.local)), Applied(s.remote, s.local, Pending(s.local));
    SettledTwice(s.local, Pending(s.local));
    PartKeepsClean(t, r, done, gone);
    assert Settled(s'.local, {}) == s'.local && Applied(r, s'.local, {}) == r;
    PartThenWhole(t, r, done, gone);
  }

  lemma PartKeepsClean(t: Local, r: Remote, done: set<Keyword>, gone: set<Keyword>)
    requires Pending(t) == {}
    ensures Pending(Part(t, r, done, gone)) == {}
  {
    forall k | k in Part(t, r, done, gone) ensures Part(t, r, done, gone)[k].synced {
      PartAt(t, r, done, gone, k);
      assert k in t && !t[k].synced ==> k in Pending(t);
    }
  }

  /** A pass that did not get to its end, whatever stopped it. */
  ghost predicate CutShort(s: Tables, s': Tables) {
    Stopped(s, s') || exists done: set<Keyword>, gone: set<Keyword> :: Torn(s, s', done, gone)
  }

  /** So do any number of passes cut short one after another. */
  lemma {:induction false} RetriesAreFullPass(attempts: seq<Tables>)
    requires attempts != []
    requires forall n :: 0 < n < |attempts| ==> CutShort(attempts[n - 1], attempts[n])
    ensures FullPass(attempts[|attempts| - 1]) == FullPass(attempts[0])
  {
    if |attempts| > 1 {
      var n := |attempts| - 1;
      assert CutShort(attempts[n - 1], attempts[n]);
      RetriesAreFullPass(attempts[..n]);
      if Stopped(attempts[n - 1], attempts[n]) {
        RetryIsFullPass(attempts[n - 1], attempts[n]);
      } else {
        var done: set<Keyword>, gone: set<Keyword> :| Torn(attempts[n - 1], attempts[n], done, gone);
        TornRetryIsFullPass(attempts[n - 1], attempts[n], done, gone);
      }
    }
  }

  /** And none that stopped at a request changes what any keyword means here. */
  lemma {:induction false} RetriesKeepMeaning(attempts: seq<Tables>)
    requires attempts != []
    requires forall n :: 0 < n < |attempts| ==> Stopped(attempts[n - 1], attempts[n])
    ensures Effective(attempts[|attempts| - 1].local) == Effective(attempts[0].local)
  {
    if |attempts| > 1 {
      var n := |attempts| - 1;
      assert Stopped(attempts[n - 1], attempts[n]);
      RetriesKeepMeaning(attempts[..n]);
      StoppedKeepsMeaning(attempts[n - 1], attempts[n]);
    }
  }

  ghost predicate WellFormed(r: Remote) {
    forall k :: k in r ==> Usable(k, r[k])
  }

  /** Rows as the catalogue and earlier passes write them. */
  ghost predicate Lawful(t: Local) {
    forall k :: k in t ==> ValidKeyword(k) && (if t[k].model == "" then !t[k].synced else ValidModel(t[k].model))
  }

  function Models(r: Remote): map<Keyword, string> {
    map k | k in r && r[k].Entry? :: r[k].model
  }

  lemma SettledIsLawful(t: Local)
    requires Lawful(t)
    ensures Lawful(Settled(t, Pending(t))) && Pending(Settled(t, Pending(t))) == {}
  {
  }

  /** In such tables every row that can be dropped meant something, so any adoption or drop shows. */
  lemma LawfulShowsIff(s: Tables, done: set<Keyword>, gone: set<Keyword>)
    requires Lawful(s.local)
    ensures var t, r := Settled(s.local, Pending(s.local)), Applied(s.remote, s.local, Pending(s.local));
      NothingShows(s, done, gone) <==> Adopted(t, r, done) == {} && Vanished(t, r, gone) == {}
  {
    SettledIsLawful(s.local);
    NoMembers(Vanished(Settled(s.local, Pending(s.local)), Applied(s.remote, s.local, Pending(s.local)), gone)
              - Effective(Settled(s.local, Pending(s.local))).Keys);
  }

  lemma AppliedIsWellFormed(r: Remote, t: Local, sent: set<Keyword>)
    requires Lawful(t) && WellFormed(r) && sent <= t.Keys
    ensures WellFormed(Applied(r, t, sent))
  {
  }

  lemma PulledIsLawful(t: Local, r: Remote)
    requires Lawful(t)
    ensures Lawful(Pulled(t, r)) && Pending(Pulled(t, r)) <= Pending(t)
  {
    EmptyIsNoModel();
  }

  lemma PartIsLawful(t: Local, r: Remote, done: set<Keyword>, gone: set<Keyword>)
    requires Lawful(t)
    ensures Lawful(Part(t, r, done, gone)) && Pending(Part(t, r, done, gone)) <= Pending(t)
  {
    EmptyIsNoModel();
    forall k | k in Part(t, r, done, gone)
      ensures var row := Part(t, r, done, gone)[k];
        && ValidKeyword(k) && (if row.model == "" then !row.synced else ValidModel(row.model))
        && (!row.synced ==> k in Pending(t))
    {
      PartAt(t, r, done, gone, k);
    }
  }

  /** A table that agrees with the shared one stays as it means, however far the pull gets. */
  lemma AgreedStays(t: Local, r: Remote, done: set<Keyword>, gone: set<Keyword>)
    requires Lawful(t) && WellFormed(r) && Pending(t) == {} && Effective(t) == Models(r)
    ensures Effective(Part(t, r, done, gone)) == Models(r)
  {
    forall k ensures !Adopts(t, r, k) && !Gone(t, r, k) {
      assert k in t && !t[k].synced ==> k in Pending(t);
      assert k in Effective(t) <==> k in Models(r);
      assert k in r ==> Models(r)[k] == r[k].model;
    }
    PartShowsIff(t, r, done, gone);
  }

  /** With nothing pending, pulling a well-formed table makes it the meaning of the local one. */
  lemma PullAdopts(t: Local, r: Remote)
    requires Pending(t) == {} && WellFormed(r)
    ensures Effective(Pulled(t, r)) == Models(r)
  {
    forall k ensures k in Effective(Pulled(t, r)) <==> k in Models(r)
             ensures k in Models(r) ==> Effective(Pulled(t, r))[k] == Models(r)[k]
    {
      PulledMeans(t, r, k);
    }
  }

  lemma PulledMeans(t: Local, r: Remote, k: Keyword)
    requires Pending(t) == {} && WellFormed(r)
    ensures k in Effective(Pulled(t, r)) <==> k in Models(r)
    ensures k in Models(r) ==> Effective(Pulled(t, r))[k] == Models(r)[k]
  {
    assert k in t && !t[k].synced ==> k in Pending(t);
  }

  /** So a full pass leaves the meaning of the local table equal to the shared one. */
  lemma FullPassAgrees(s: Tables)
    requires WellFormed(s.remote) && Lawful(s.local)
    ensures var s' := FullPass(s);
            WellFormed(s'.remote) && Lawful(s'.local) && Pending(s'.local) == {} && Effective(s'.local) == Models(s'.remote)
  {
    var settled, r := Settled(s.local, Pending(s.local)), Applied(s.remote, s.local, Pending(s.local));
    SettledIsLawful(s.local);
    AppliedIsWellFormed(s.remote, s.local, Pending(s.local));
    PulledIsLawful(settled, r);
    PullAdopts(settled, r);
  }

  /**
   A reset sticks, for a pass with no other writer, unless the store still has the keyword
   and the row had nothing left in it to say so: it was pending, or already gone.
   */
  lemma ResetSticksIff(t: Local, r: Remote, k: Keyword)
    requires WellFormed(r) && Lawful(t)
    ensures k !in Effective(FullPass(Tables(ClearRow(t, k), r)).local) <==> k !in r || (k in t && t[k].synced)
  {
    var cleared := ClearRow(t, k);
    assert Lawful(cleared);
    FullPassAgrees(Tables(cleared, r));
    assert k in FullPass(Tables(cleared, r)).remote <==> k in r && k !in Pending(cleared);
  }

  /** Resetting twice before a pass deletes the tombstone, and the next pull brings the keyword back. */
  lemma ResetTwiceIsUndone(t: Local, r: Remote, k: Keyword)
    requires WellFormed(r) && Lawful(t)
    ensures k in t && t[k].synced && k in r ==>
              && k !in Effective(FullPass(Tables(ClearRow(t, k), r)).local)
              && k in Effective(FullPass(Tables(ClearRow(ClearRow(t, k), k), r)).local)
  {
    ResetSticksIff(t, r, k);
    assert Lawful(ClearRow(t, k));
    ResetSticksIff(ClearRow(t, k), r, k);
  }
}
