/**
 Many installs sharing one keyword table, each running passes of `app/model_sync.py` whose
 requests interleave in any order and may fail, as may the local writes. Local edits fall
 between an install's passes.
 */
module Fleet {
  import opened Keywords
  import opened ModelSync
  import opened Wrappers

  /** How far an install's pass has got: what is left to push, or what the pull was sent. */
  datatype Phase = Idle | Pushing(todo: set<Keyword>) | Fetched(seen: Remote)

  datatype Install = Install(table: Local, phase: Phase)

  datatype World = World(remote: Remote, installs: map<nat, Install>)

  datatype Event =
    | Edit(i: nat, k: Keyword, model: string, description: Option<string>)
    | Reset(i: nat, k: Keyword)
    | Begin(i: nat)
    | PushOne(i: nat, k: Keyword, reply: Reply)
    | Fetch(i: nat, reply: Reply)
    | Break(i: nat, done: set<Keyword>, gone: set<Keyword>)   // a local write of the pull or the drops fails
    | Finish(i: nat)

  predicate Enabled(w: World, e: Event) {
    e.i in w.installs &&
    var me := w.installs[e.i];
    match e
    case Edit(_, k, model, _) => me.phase.Idle? && ValidKeyword(k) && ValidModel(model)
    case Reset(_, k) => me.phase.Idle?
    case Begin(_) => me.phase.Idle?
    case PushOne(_, k, _) => me.phase.Pushing? && k in me.phase.todo && k in me.table
    case Fetch(_, _) => me.phase.Pushing? && me.phase.todo == {}
    case Break(_, done, gone) =>
      me.phase.Fetched? && done <= me.phase.seen.Keys && gone <= me.table.Keys && (gone == {} || done == me.phase.seen.Keys)
    case Finish(_) => me.phase.Fetched?
  }

  /** What the event leaves of the shared table. */
  function RemoteAfter(w: World, e: Event): Remote
    requires Enabled(w, e)
  {
    if e.PushOne? && !e.reply.Refused? then Applied(w.remote, w.installs[e.i].table, {e.k}) else w.remote
  }

  /** What it leaves of the install it happens at; no event touches another install. */
  function InstallAfter(w: World, e: Event): Install
    requires Enabled(w, e)
  {
    var me := w.installs[e.i];
    match e
    case Edit(_, k, model, description) => me.(table := SetRow(me.table, k, model, description, false))
    case Reset(_, k) => me.(table := ClearRow(me.table, k))
    case Begin(_) => me.(phase := Pushing(Pending(me.table)))
    case PushOne(_, k, reply) =>
      if reply.Answered? then Install(Settled(me.table, {k}), Pushing(me.phase.todo - {k})) else me.(phase := Idle)
    case Fetch(_, reply) => me.(phase := if reply.Answered? then Fetched(w.remote) else Idle)
    case Break(_, done, gone) => Install(Part(me.table, me.phase.seen, done, gone), Idle)
    case Finish(_) => Install(Pulled(me.table, me.phase.seen), Idle)
  }

  function After(w: World, e: Event): World
    requires Enabled(w, e)
  {
    World(RemoteAfter(w, e), w.installs[e.i := InstallAfter(w, e)])
  }

  ghost predicate Allowed(w: World, es: seq<Event>)
    decreases |es|
  {
    es == [] || (Enabled(w, es[0]) && Allowed(After(w, es[0]), es[1..]))
  }

  ghost function Outcome(w: World, es: seq<Event>): World
    requires Allowed(w, es)
    decreases |es|
  {
    if es == [] then w else Outcome(After(w, es[0]), es[1..])
  }

  // ---- What every event keeps ----

  /** A pass pushes just what is pending, and pulls only once nothing is. */
  ghost predicate InOrder(me: Install) {
    && Lawful(me.table)
    && (me.phase.Pushing? ==> me.phase.todo == Pending(me.table))
    && (me.phase.Fetched? ==> Pending(me.table) == {} && WellFormed(me.phase.seen))
  }

  ghost predicate Orderly(w: World) {
    WellFormed(w.remote) && forall i :: i in w.installs ==> InOrder(w.installs[i])
  }

  lemma OnePush(t: Local, r: Remote, k: Keyword)
    requires Lawful(t) && k in Pending(t) && WellFormed(r)
    ensures Lawful(Settled(t, {k})) && Pending(Settled(t, {k})) == Pending(t) - {k}
    ensures WellFormed(Applied(r, t, {k}))
  {
  }

  lemma EditsAreLawful(t: Local, k: Keyword, model: string, description: Option<string>)
    requires Lawful(t)
    ensures ValidKeyword(k) && ValidModel(model) ==> Lawful(SetRow(t, k, model, description, false))
    ensures Lawful(ClearRow(t, k))
  {
    EmptyIsNoModel();
  }

  lemma InstallKeepsOrder(w: World, e: Event)
    requires Enabled(w, e) && InOrder(w.installs[e.i]) && WellFormed(w.remote)
    ensures InOrder(InstallAfter(w, e)) && WellFormed(RemoteAfter(w, e))
  {
    var me := w.installs[e.i];
    match e
    case Edit(_, k, model, description) => EditsAreLawful(me.table, k, model, description);
    case Reset(_, k) => EditsAreLawful(me.table, k, "", None);
    case PushOne(_, k, _) => OnePush(me.table, w.remote, k);
    case Break(_, done, gone) => PartIsLawful(me.table, me.phase.seen, done, gone);
    case Finish(_) => PulledIsLawful(me.table, me.phase.seen);
    case _ =>
  }

  lemma EventKeepsOrder(w: World, e: Event)
    requires Orderly(w) && Enabled(w, e)
    ensures Orderly(After(w, e))
  {
    InstallKeepsOrder(w, e);
    assert After(w, e).installs.Keys == w.installs.Keys;
  }

  /**
   What one push leaves, however its request ends: a request applied shows in the shared table even
   if its answer is lost, and only an answered one settles the row here. Either way the two tables
   are those of a pass of `sync_once` that has got this far.
   */
  lemma PushLeaves(w: World, i: nat, k: Keyword, reply: Reply)
    requires Enabled(w, PushOne(i, k, reply)) && InOrder(w.installs[i])
    ensures var s, w' := Tables(w.installs[i].table, w.remote), After(w, PushOne(i, k, reply));
      && Tables(w'.installs[i].table, w'.remote) == Halfway(s, if reply == Answered then {k} else {}, if reply == Refused then {} else {k})
      && (reply == Answered <==> w'.installs[i].phase.Pushing?)
  {
    NothingSettled(w.installs[i].table, w.remote);
  }

  lemma FailedPushStops(w: World, i: nat, k: Keyword, reply: Reply)
    requires Enabled(w, PushOne(i, k, reply)) && InOrder(w.installs[i]) && reply != Answered
    ensures var w' := After(w, PushOne(i, k, reply));
      Stopped(Tables(w.installs[i].table, w.remote), Tables(w'.installs[i].table, w'.remote))
  {
    var s, none: set<Keyword> := Tables(w.installs[i].table, w.remote), {};
    PushLeaves(w, i, k, reply);
    assert k in Pending(s.local) && {k} - none == {k} && none - none == none;
    StoppedAt(s, none, if reply == Refused then none else {k});
  }

  lemma NothingSettled(t: Local, r: Remote)
    ensures Settled(t, {}) == t && Applied(r, t, {}) == r
  {
  }

  /** In the shared table: the row pushed, or for a removal none, exactly if the request was applied. */
  lemma PushShows(w: World, i: nat, k: Keyword, reply: Reply)
    requires Enabled(w, PushOne(i, k, reply))
    ensures var row, remote := w.installs[i].table[k], After(w, PushOne(i, k, reply)).remote;
      && remote - {k} == w.remote - {k} && (reply == Refused ==> remote == w.remote)
      && (reply != Refused ==> (k in remote <==> row.model != ""))
      && (reply != Refused && row.model != "" ==> remote[k] == Entry(row.model, row.description))
  {
  }

  // ---- Convergence ----

  /** An event that is part of a pass and not an edit. */
  predicate Quiet(e: Event) { !e.Edit? && !e.Reset? }

  ghost predicate QuietRun(es: seq<Event>) {
    forall n :: 0 <= n < |es| ==> Quiet(es[n])
  }

  ghost predicate Clean(me: Install) { Pending(me.table) == {} }

  lemma QuietKeepsClean(w: World, e: Event, i: nat)
    requires Orderly(w) && Enabled(w, e) && Quiet(e) && i in w.installs
    ensures Clean(w.installs[i]) || e == Finish(i) ==> Clean(After(w, e).installs[i])
  {
    if e.i == i {
      var me := w.installs[i];
      match e
      case PushOne(_, k, _) => OnePush(me.table, w.remote, k);
      case Break(_, done, gone) => PartIsLawful(me.table, me.phase.seen, done, gone);
      case Finish(_) => PulledIsLawful(me.table, me.phase.seen);
      case _ =>
    }
  }

  /** After a pass finishes, and with no edits, an install has nothing left to push. */
  lemma {:induction false} FinishedIsClean(w: World, es: seq<Event>, i: nat)
    requires Orderly(w) && Allowed(w, es) && QuietRun(es) && i in w.installs
    requires Clean(w.installs[i]) || Finish(i) in es
    ensures Orderly(Outcome(w, es)) && Outcome(w, es).installs.Keys == w.installs.Keys
    ensures Clean(Outcome(w, es).installs[i])
    decreases |es|
  {
    if es != [] {
      EventKeepsOrder(w, es[0]);
      QuietKeepsClean(w, es[0], i);
      assert es == [es[0]] + es[1..];
      FinishedIsClean(After(w, es[0]), es[1..], i);
    }
  }

  ghost predicate AllClean(w: World) {
    Orderly(w) && forall i :: i in w.installs ==> Clean(w.installs[i])
  }

  /** What the install has fetched, if anything, is the shared table as it stands. */
  ghost predicate UpToDate(w: World, i: nat)
    requires i in w.installs
  {
    w.installs[i].phase.Fetched? ==> w.installs[i].phase.seen == w.remote
  }

  ghost predicate Agrees(w: World, i: nat)
    requires i in w.installs
  {
    Effective(w.installs[i].table) == Models(w.remote)
  }

  /** With every install clean, the shared table is frozen and a pass can only bring agreement. */
  lemma CleanStep(w: World, e: Event, i: nat)
    requires AllClean(w) && Enabled(w, e) && Quiet(e) && i in w.installs
    ensures AllClean(After(w, e)) && After(w, e).remote == w.remote
    ensures e == Begin(i) || UpToDate(w, i) ==> UpToDate(After(w, e), i)
    ensures UpToDate(w, i) && (Agrees(w, i) || e == Finish(i)) ==> Agrees(After(w, e), i)
  {
    EventKeepsOrder(w, e);
    forall j | j in w.installs ensures Clean(After(w, e).installs[j]) {
      QuietKeepsClean(w, e, j);
    }
    if e == Finish(i) {
      PullAdopts(w.installs[i].table, w.installs[i].phase.seen);
    } else if e.Break? && e.i == i && UpToDate(w, i) && Agrees(w, i) {
      AgreedStays(w.installs[i].table, w.installs[i].phase.seen, e.done, e.gone);
    }
    assert !e.PushOne?;
  }

  /** The run holds a pass of `i` from beginning to end. */
  ghost predicate CompletesPass(es: seq<Event>, i: nat) {
    exists b: nat, f: nat :: b < f < |es| && es[b] == Begin(i) && es[f] == Finish(i)
  }

  lemma CompletesLater(es: seq<Event>, i: nat)
    requires es != [] && CompletesPass(es, i)
    ensures (es[0] == Begin(i) && Finish(i) in es[1..]) || CompletesPass(es[1..], i)
  {
    var b: nat, f: nat :| b < f < |es| && es[b] == Begin(i) && es[f] == Finish(i);
    assert es[1..][f - 1] == Finish(i);
    if b > 0 {
      assert es[1..][b - 1] == Begin(i);
    }
  }

  /** From up to date and agreeing, or with a finish to come, to agreeing at the end. */
  lemma {:induction false} AgreementLasts(w: World, es: seq<Event>, i: nat)
    requires AllClean(w) && Allowed(w, es) && QuietRun(es) && i in w.installs
    requires UpToDate(w, i) && (Agrees(w, i) || Finish(i) in es)
    ensures Outcome(w, es).installs.Keys == w.installs.Keys && Outcome(w, es).remote == w.remote
    ensures Agrees(Outcome(w, es), i)
    decreases |es|
  {
    if es != [] {
      CleanStep(w, es[0], i);
      assert es == [es[0]] + es[1..];
      AgreementLasts(After(w, es[0]), es[1..], i);
    }
  }

  lemma {:induction false} CleanRunAgrees(w: World, es: seq<Event>, i: nat)
    requires AllClean(w) && Allowed(w, es) && QuietRun(es) && i in w.installs && CompletesPass(es, i)
    ensures Outcome(w, es).installs.Keys == w.installs.Keys && Outcome(w, es).remote == w.remote
    ensures Agrees(Outcome(w, es), i)
    decreases |es|
  {
    var w', rest := After(w, es[0]), es[1..];
    CleanStep(w, es[0], i);
    CompletesLater(es, i);
    QuietLater(es);
    if CompletesPass(rest, i) {
      CleanRunAgrees(w', rest, i);
    } else {
      AgreementLasts(w', rest, i);
    }
  }

  lemma QuietLater(es: seq<Event>)
    requires es != [] && QuietRun(es)
    ensures QuietRun(es[1..]) && Quiet(es[0])
  {
    assert forall n :: 0 <= n < |es[1..]| ==> es[1..][n] == es[n + 1];
  }

  /**
   Convergence. Once edits have stopped: after a stretch in which every install finishes a
   pass, and a second in which every install begins and finishes one, every install means
   by its keywords what the shared table says, however the requests of all the passes,
   failed ones included, were interleaved.
   */
  lemma Convergence(w: World, first: seq<Event>, second: seq<Event>)
    requires Orderly(w) && Allowed(w, first) && QuietRun(first)
    requires Allowed(Outcome(w, first), second) && QuietRun(second)
    requires forall i :: i in w.installs ==> Finish(i) in first && CompletesPass(second, i)
    ensures var end := Outcome(Outcome(w, first), second);
            && end.installs.Keys == w.installs.Keys
            && (w.installs != map[] ==> end.remote == Outcome(w, first).remote)
            && forall i :: i in w.installs ==> Agrees(end, i)
  {
    var mid := Outcome(w, first);
    OutcomeOrderly(w, first);
    forall i | i in w.installs ensures Clean(mid.installs[i]) {
      FinishedIsClean(w, first, i);
    }
    OutcomeOrderly(mid, second);
    forall i | i in w.installs ensures Agrees(Outcome(mid, second), i) && Outcome(mid, second).remote == mid.remote {
      CleanRunAgrees(mid, second, i);
    }
    if w.installs != map[] {
      var i :| i in w.installs;
      CleanRunAgrees(mid, second, i);
    }
  }

  lemma {:induction false} OutcomeOrderly(w: World, es: seq<Event>)
    requires Orderly(w) && Allowed(w, es)
    ensures Orderly(Outcome(w, es)) && Outcome(w, es).installs.Keys == w.installs.Keys
    decreases |es|
  {
    if es != [] {
      EventKeepsOrder(w, es[0]);
      OutcomeOrderly(After(w, es[0]), es[1..]);
    }
  }

  // ---- No resurrection ----

  /** The reset of `k` at `i` is still queued there, or has reached both tables. */
  ghost predicate Buried(w: World, i: nat, k: Keyword)
    requires i in w.installs
  {
    var me := w.installs[i];
    if k in me.table then k in Pending(me.table) && me.table[k].model == ""
    else k !in w.remote && (me.phase.Fetched? ==> k !in me.phase.seen)
  }

  /** Nobody else has a change to `k` to push. */
  ghost predicate Uncontested(w: World, i: nat, k: Keyword) {
    forall j :: j in w.installs && j != i ==> k !in Pending(w.installs[j].table)
  }

  predicate Touches(e: Event, k: Keyword) { (e.Edit? || e.Reset?) && e.k == k }

  lemma OthersKeepBuried(w: World, e: Event, i: nat, k: Keyword)
    requires Orderly(w) && Enabled(w, e) && !Touches(e, k) && i in w.installs && e.i != i
    requires Buried(w, i, k) && Uncontested(w, i, k)
    ensures k !in Pending(InstallAfter(w, e).table)
    ensures k in RemoteAfter(w, e) ==> k in w.remote
  {
    match e
    case PushOne(_, x, _) => OtherPushes(w, e, k);
    case Break(_, _, _) => OtherFinishes(w, e, k);
    case Finish(_) => OtherFinishes(w, e, k);
    case _ =>
  }

  lemma InstallKeepsPending(w: World, e: Event)
    requires Orderly(w) && Enabled(w, e) && (e.Finish? || e.Break?)
    ensures Pending(InstallAfter(w, e).table) <= Pending(w.installs[e.i].table)
  {
    var me := w.installs[e.i];
    if e.Break? {
      PartIsLawful(me.table, me.phase.seen, e.done, e.gone);
    } else {
      PulledIsLawful(me.table, me.phase.seen);
    }
  }

  lemma OtherPushes(w: World, e: Event, k: Keyword)
    requires Orderly(w) && Enabled(w, e) && e.PushOne? && k !in Pending(w.installs[e.i].table)
    ensures k !in Pending(InstallAfter(w, e).table) && (k in RemoteAfter(w, e) ==> k in w.remote)
  {
    assert e.k in Pending(w.installs[e.i].table);
  }

  lemma OtherFinishes(w: World, e: Event, k: Keyword)
    requires Orderly(w) && Enabled(w, e) && (e.Finish? || e.Break?) && k !in Pending(w.installs[e.i].table)
    ensures k !in Pending(InstallAfter(w, e).table) && RemoteAfter(w, e) == w.remote
  {
    InstallKeepsPending(w, e);
  }

  lemma OwnStepKeepsBuried(w: World, e: Event, k: Keyword)
    requires Orderly(w) && Enabled(w, e) && !Touches(e, k) && Buried(w, e.i, k)
    ensures Buried(After(w, e), e.i, k)
    ensures k !in w.installs[e.i].table || e == Finish(e.i) ==> k !in InstallAfter(w, e).table
  {
    match e
    case PushOne(_, _, _) => OwnPushKeepsBuried(w, e, k);
    case Break(_, _, _) => OwnBreakKeepsBuried(w, e, k);
    case Finish(_) => OwnFinishKeepsBuried(w, e, k);
    case _ => OwnRestKeepsBuried(w, e, k);
  }

  lemma OwnPushKeepsBuried(w: World, e: Event, k: Keyword)
    requires Orderly(w) && Enabled(w, e) && e.PushOne? && Buried(w, e.i, k)
    ensures Buried(After(w, e), e.i, k)
    ensures k !in w.installs[e.i].table ==> k !in InstallAfter(w, e).table
  {
    OnePush(w.installs[e.i].table, w.remote, e.k);
  }

  lemma OwnFinishKeepsBuried(w: World, e: Event, k: Keyword)
    requires Orderly(w) && Enabled(w, e) && e.Finish? && Buried(w, e.i, k)
    ensures Buried(After(w, e), e.i, k) && k !in InstallAfter(w, e).table
  {
    PulledIsLawful(w.installs[e.i].table, w.installs[e.i].phase.seen);
  }

  lemma OwnBreakKeepsBuried(w: World, e: Event, k: Keyword)
    requires Orderly(w) && Enabled(w, e) && e.Break? && Buried(w, e.i, k)
    ensures Buried(After(w, e), e.i, k) && k !in InstallAfter(w, e).table
  {
    PartAt(w.installs[e.i].table, w.installs[e.i].phase.seen, e.done, e.gone, k);
  }

  lemma OwnRestKeepsBuried(w: World, e: Event, k: Keyword)
    requires Orderly(w) && Enabled(w, e) && !Touches(e, k) && Buried(w, e.i, k) && !e.PushOne? && !e.Break? && !e.Finish?
    ensures Buried(After(w, e), e.i, k)
    ensures k !in w.installs[e.i].table ==> k !in InstallAfter(w, e).table
  {
  }

  lemma BuriedStep(w: World, e: Event, i: nat, k: Keyword)
    requires Orderly(w) && Enabled(w, e) && !Touches(e, k) && i in w.installs
    requires Buried(w, i, k) && Uncontested(w, i, k)
    ensures Buried(After(w, e), i, k) && Uncontested(After(w, e), i, k)
    ensures k !in w.installs[i].table || e == Finish(i) ==> k !in After(w, e).installs[i].table
  {
    if e.i == i {
      OwnStepKeepsBuried(w, e, k);
    } else {
      OthersKeepBuried(w, e, i, k);
    }
  }

  /**
   No resurrection. One reset of a shared keyword, with no other edit to it anywhere,
   leaves it meaning its default through any number of passes, failed or not, here and
   elsewhere; after the first pass that finishes it is in neither table.
   */
  lemma {:induction false} StaysBuried(w: World, es: seq<Event>, i: nat, k: Keyword)
    requires Orderly(w) && Allowed(w, es) && i in w.installs
    requires Buried(w, i, k) && Uncontested(w, i, k)
    requires forall n :: 0 <= n < |es| ==> !Touches(es[n], k)
    ensures i in Outcome(w, es).installs
    ensures k !in Effective(Outcome(w, es).installs[i].table)
    ensures k !in w.installs[i].table || Finish(i) in es ==>
              k !in Outcome(w, es).installs[i].table && k !in Outcome(w, es).remote
    decreases |es|
  {
    if es == [] {
      EmptyIsNoModel();
    } else {
      EventKeepsOrder(w, es[0]);
      BuriedStep(w, es[0], i, k);
      assert es == [es[0]] + es[1..];
      StaysBuried(After(w, es[0]), es[1..], i, k);
    }
  }

  /** The keyword is shared here, nobody else has a change to it, and no later edit touches it. */
  ghost predicate LoneReset(w: World, es: seq<Event>, i: nat, k: Keyword)
    requires i in w.installs
  {
    && k in w.installs[i].table && w.installs[i].table[k].synced && Uncontested(w, i, k)
    && forall n :: 0 <= n < |es| ==> !Touches(es[n], k)
  }

  lemma NoResurrection(w: World, es: seq<Event>, i: nat, k: Keyword)
    requires Orderly(w) && Enabled(w, Reset(i, k)) && Allowed(After(w, Reset(i, k)), es)
    ensures LoneReset(w, es, i, k) ==>
              var end := Outcome(After(w, Reset(i, k)), es);
              && i in end.installs
              && k !in Effective(end.installs[i].table)
              && (Finish(i) in es ==> k !in end.installs[i].table && k !in end.remote)
  {
    EventKeepsOrder(w, Reset(i, k));
    if LoneReset(w, es, i, k) {
      StaysBuried(After(w, Reset(i, k)), es, i, k);
    }
  }

  // ---- An edit spreads ----

  /** The edit of `k` at `i` is still queued there, or has reached the shared table and whatever was fetched since. */
  ghost predicate Spreading(w: World, i: nat, k: Keyword, model: string)
    requires i in w.installs
  {
    var me := w.installs[i];
    && k in me.table && me.table[k].model == model
    && (k !in Pending(me.table) ==> Shares(w.remote, k, model) && (me.phase.Fetched? ==> Shares(me.phase.seen, k, model)))
  }

  predicate Shares(r: Remote, k: Keyword, model: string) { k in r && r[k].Entry? && r[k].model == model }

  lemma OthersKeepSpreading(w: World, e: Event, k: Keyword, model: string)
    requires Orderly(w) && Enabled(w, e) && !Touches(e, k) && k !in Pending(w.installs[e.i].table)
    ensures k !in Pending(InstallAfter(w, e).table)
    ensures k in RemoteAfter(w, e) <==> k in w.remote
    ensures k in w.remote ==> RemoteAfter(w, e)[k] == w.remote[k]
  {
    match e
    case PushOne(_, x, _) => OtherPushes(w, e, k); OtherRows(w, e, k);
    case Break(_, _, _) => OtherFinishes(w, e, k);
    case Finish(_) => OtherFinishes(w, e, k);
    case _ =>
  }

  lemma OtherRows(w: World, e: Event, k: Keyword)
    requires Orderly(w) && Enabled(w, e) && e.PushOne? && e.k != k
    ensures k in RemoteAfter(w, e) <==> k in w.remote
    ensures k in w.remote ==> RemoteAfter(w, e)[k] == w.remote[k]
  {
  }

  lemma OwnPushSpreads(w: World, e: Event, k: Keyword, model: string)
    requires Orderly(w) && Enabled(w, e) && e.PushOne? && Spreading(w, e.i, k, model) && model != ""
    ensures Spreading(After(w, e), e.i, k, model)
  {
    if e.k == k {
      OwnKeySpreads(w, e, model);
    } else {
      OtherKeySpreads(w, e, k, model);
    }
  }

  lemma OwnKeySpreads(w: World, e: Event, model: string)
    requires Orderly(w) && Enabled(w, e) && e.PushOne? && Spreading(w, e.i, e.k, model) && model != ""
    ensures Spreading(After(w, e), e.i, e.k, model)
  {
    OnePush(w.installs[e.i].table, w.remote, e.k);
    PushShows(w, e.i, e.k, e.reply);
  }

  lemma OtherKeySpreads(w: World, e: Event, k: Keyword, model: string)
    requires Orderly(w) && Enabled(w, e) && e.PushOne? && Spreading(w, e.i, k, model) && e.k != k
    ensures Spreading(After(w, e), e.i, k, model)
  {
    OtherRows(w, e, k);
  }

  lemma OwnPullSpreads(w: World, e: Event, k: Keyword, model: string)
    requires Orderly(w) && Enabled(w, e) && (e.Break? || e.Finish?) && Spreading(w, e.i, k, model)
    ensures Spreading(After(w, e), e.i, k, model) && k !in Pending(InstallAfter(w, e).table)
  {
    var me := w.installs[e.i];
    assert k !in Pending(me.table);
    InstallKeepsPending(w, e);
    if e.Break? {
      PartAt(me.table, me.phase.seen, e.done, e.gone, k);
    } else {
      PartAt(me.table, me.phase.seen, me.phase.seen.Keys, me.table.Keys, k);
    }
  }

  lemma OwnRestSpreads(w: World, e: Event, k: Keyword, model: string)
    requires Orderly(w) && Enabled(w, e) && !Touches(e, k) && Spreading(w, e.i, k, model)
    requires !e.PushOne? && !e.Break? && !e.Finish?
    ensures Spreading(After(w, e), e.i, k, model)
  {
  }

  lemma SpreadStep(w: World, e: Event, i: nat, k: Keyword, model: string)
    requires Orderly(w) && Enabled(w, e) && !Touches(e, k) && i in w.installs && model != ""
    requires Spreading(w, i, k, model) && Uncontested(w, i, k)
    ensures Spreading(After(w, e), i, k, model) && Uncontested(After(w, e), i, k)
  {
    if e.i != i {
      OthersKeepSpreading(w, e, k, model);
    } else if e.PushOne? {
      OwnPushSpreads(w, e, k, model);
    } else if e.Break? || e.Finish? {
      OwnPullSpreads(w, e, k, model);
    } else {
      OwnRestSpreads(w, e, k, model);
    }
  }

  /** Whether the keyword has been pushed for good: it has nothing pending at `i`. */
  lemma FinishedIsShared(w: World, e: Event, i: nat, k: Keyword, model: string)
    requires Orderly(w) && Enabled(w, e) && !Touches(e, k) && i in w.installs && Spreading(w, i, k, model)
    ensures k !in Pending(w.installs[i].table) || e == Finish(i) ==> k !in Pending(After(w, e).installs[i].table)
  {
    if e.i == i {
      if e.PushOne? {
        OnePush(w.installs[i].table, w.remote, e.k);
      } else if e.Break? || e.Finish? {
        InstallKeepsPending(w, e);
        assert Pending(w.installs[i].table) == {};
      }
    }
  }

  ghost predicate LeftAlone(es: seq<Event>, k: Keyword) {
    forall n :: 0 <= n < |es| ==> !Touches(es[n], k)
  }

  lemma LeftAloneLater(es: seq<Event>, k: Keyword)
    requires es != [] && LeftAlone(es, k)
    ensures !Touches(es[0], k) && LeftAlone(es[1..], k)
  {
    assert forall n :: 0 <= n < |es[1..]| ==> es[1..][n] == es[n + 1];
  }

  /** An edit on its way at an install where every pass is in order, and nobody else's. */
  ghost predicate OnItsWay(w: World, i: nat, k: Keyword, model: string) {
    Orderly(w) && i in w.installs && Spreading(w, i, k, model) && Uncontested(w, i, k)
  }

  lemma OneStepOn(w: World, e: Event, i: nat, k: Keyword, model: string)
    requires OnItsWay(w, i, k, model) && Enabled(w, e) && !Touches(e, k) && model != ""
    ensures OnItsWay(After(w, e), i, k, model)
  {
    EventKeepsOrder(w, e);
    SpreadStep(w, e, i, k, model);
  }

  lemma {:induction false} KeepsSpreading(w: World, es: seq<Event>, i: nat, k: Keyword, model: string)
    requires OnItsWay(w, i, k, model) && Allowed(w, es) && LeftAlone(es, k) && model != ""
    ensures OnItsWay(Outcome(w, es), i, k, model)
    decreases |es|
  {
    if es != [] {
      LeftAloneLater(es, k);
      OneStepOn(w, es[0], i, k, model);
      KeepsSpreading(After(w, es[0]), es[1..], i, k, model);
    }
  }

  /** It has been pushed: there is nothing of `k` left to push at `i`. */
  ghost predicate Arrived(w: World, i: nat, k: Keyword, model: string) {
    OnItsWay(w, i, k, model) && k !in Pending(w.installs[i].table)
  }

  lemma OneStepArrived(w: World, e: Event, i: nat, k: Keyword, model: string)
    requires OnItsWay(w, i, k, model) && Enabled(w, e) && !Touches(e, k) && model != ""
    ensures Arrived(w, i, k, model) || e == Finish(i) ==> Arrived(After(w, e), i, k, model)
  {
    OneStepOn(w, e, i, k, model);
    FinishedIsShared(w, e, i, k, model);
  }

  lemma {:induction false} StaysArrived(w: World, es: seq<Event>, i: nat, k: Keyword, model: string)
    requires Arrived(w, i, k, model) && Allowed(w, es) && LeftAlone(es, k) && model != ""
    ensures Arrived(Outcome(w, es), i, k, model)
    decreases |es|
  {
    if es != [] {
      LeftAloneLater(es, k);
      OneStepArrived(w, es[0], i, k, model);
      StaysArrived(After(w, es[0]), es[1..], i, k, model);
    }
  }

  lemma {:induction false} FinishShares(w: World, es: seq<Event>, i: nat, k: Keyword, model: string)
    requires OnItsWay(w, i, k, model) && Allowed(w, es) && LeftAlone(es, k) && model != "" && Finish(i) in es
    ensures Arrived(Outcome(w, es), i, k, model)
    decreases |es|
  {
    LeftAloneLater(es, k);
    OneStepOn(w, es[0], i, k, model);
    if es[0] == Finish(i) {
      OneStepArrived(w, es[0], i, k, model);
      StaysArrived(After(w, es[0]), es[1..], i, k, model);
    } else {
      InRest(es, Finish(i));
      FinishShares(After(w, es[0]), es[1..], i, k, model);
    }
  }

  lemma InRest(es: seq<Event>, e: Event)
    requires e in es && es[0] != e
    ensures e in es[1..]
  {
    assert es == [es[0]] + es[1..];
  }

  /**
   An edit spreads. A keyword pointed at a model, with no other edit to it anywhere, means that model
   here through any number of passes, failed or not, here and elsewhere; and once a pass of this
   install has finished, the shared table says so too, for `Convergence` to carry to all the others.
   */
  lemma EditSpreads(w: World, es: seq<Event>, i: nat, k: Keyword, model: string, description: Option<string>)
    requires Orderly(w) && Enabled(w, Edit(i, k, model, description)) && Allowed(After(w, Edit(i, k, model, description)), es)
    requires Uncontested(w, i, k) && LeftAlone(es, k)
    ensures var end := Outcome(After(w, Edit(i, k, model, description)), es);
      && i in end.installs && k in Effective(end.installs[i].table) && Effective(end.installs[i].table)[k] == model
      && (Finish(i) in es ==> k in Models(end.remote) && Models(end.remote)[k] == model)
  {
    var e := Edit(i, k, model, description);
    EmptyIsNoModel();
    EventKeepsOrder(w, e);
    KeepsSpreading(After(w, e), es, i, k, model);
    if Finish(i) in es {
      FinishShares(After(w, e), es, i, k, model);
    }
  }

  // ---- A pass taken step by step is the pass of `sync_once` ----

  /** The events of one uninterrupted pass, pushing in the order given. */
  function PassEvents(i: nat, order: seq<Keyword>): seq<Event> {
    if order == [] then [Fetch(i, Answered), Finish(i)]
    else [PushOne(i, order[0], Answered)] + PassEvents(i, order[1..])
  }

  lemma {:induction false} PushesAdd(t: Local, r: Remote, k: Keyword)
    requires k in Pending(t)
    ensures var t', r' := Settled(t, {k}), Applied(r, t, {k});
            && Pending(t') == Pending(t) - {k}
            && FullPass(Tables(t', r')) == FullPass(Tables(t, r))
  {
    assert ({k}) - ({k}) == {};
    StoppedAt(Tables(t, r), {k}, {k});
    RetryIsFullPass(Tables(t, r), Halfway(Tables(t, r), {k}, {k}));
  }

  lemma {:induction false} PassIsFullPass(w: World, i: nat, order: seq<Keyword>)
    requires Orderly(w) && i in w.installs && w.installs[i].phase.Pushing?
    requires forall k :: k in order <==> k in Pending(w.installs[i].table)
    requires forall a, b :: 0 <= a < b < |order| ==> order[a] != order[b]
    ensures Allowed(w, PassEvents(i, order))
    ensures var end, s := Outcome(w, PassEvents(i, order)), Tables(w.installs[i].table, w.remote);
            i in end.installs && Tables(end.installs[i].table, end.remote) == FullPass(s)
    decreases |order|
  {
    if order == [] {
      assert Pending(w.installs[i].table) == {};
      LastSteps(w, i);
    } else {
      var w' := FirstPush(w, i, order);
      PassIsFullPass(w', i, order[1..]);
      var es := PassEvents(i, order);
      assert es[0] == PushOne(i, order[0], Answered) && es[1..] == PassEvents(i, order[1..]);
    }
  }

  /** So a pass from its beginning: with every request answered it ends idle, with both tables at the full pass. */
  lemma BegunPassIsFullPass(w: World, i: nat, order: seq<Keyword>)
    requires Orderly(w) && i in w.installs && w.installs[i].phase.Idle?
    requires forall k :: k in order <==> k in Pending(w.installs[i].table)
    requires forall a, b :: 0 <= a < b < |order| ==> order[a] != order[b]
    ensures var es, s := [Begin(i)] + PassEvents(i, order), Tables(w.installs[i].table, w.remote);
      && Allowed(w, es) && i in Outcome(w, es).installs
      && Tables(Outcome(w, es).installs[i].table, Outcome(w, es).remote) == FullPass(s)
  {
    var es := [Begin(i)] + PassEvents(i, order);
    assert es[1..] == PassEvents(i, order);
    EventKeepsOrder(w, Begin(i));
    PassIsFullPass(After(w, Begin(i)), i, order);
  }

  lemma FirstPush(w: World, i: nat, order: seq<Keyword>) returns (w': World)
    requires Orderly(w) && i in w.installs && w.installs[i].phase.Pushing? && order != []
    requires forall k :: k in order <==> k in Pending(w.installs[i].table)
    requires forall a, b :: 0 <= a < b < |order| ==> order[a] != order[b]
    ensures Enabled(w, PushOne(i, order[0], Answered)) && w' == After(w, PushOne(i, order[0], Answered))
    ensures Orderly(w') && i in w'.installs && w'.installs[i].phase.Pushing?
    ensures forall k :: k in order[1..] <==> k in Pending(w'.installs[i].table)
    ensures FullPass(Tables(w'.installs[i].table, w'.remote)) == FullPass(Tables(w.installs[i].table, w.remote))
  {
    var e := PushOne(i, order[0], Answered);
    assert order == [order[0]] + order[1..];
    assert order[0] in order;
    assert order[0] !in order[1..];
    w' := After(w, e);
    EventKeepsOrder(w, e);
    PushesAdd(w.installs[i].table, w.remote, order[0]);
  }

  lemma LastSteps(w: World, i: nat)
    requires i in w.installs && w.installs[i].phase == Pushing({}) && Pending(w.installs[i].table) == {}
    ensures var es := [Fetch(i, Answered), Finish(i)];
            && Allowed(w, es) && i in Outcome(w, es).installs
            && Tables(Outcome(w, es).installs[i].table, Outcome(w, es).remote) == FullPass(Tables(w.installs[i].table, w.remote))
  {
    var t := w.installs[i].table;
    var es := [Fetch(i, Answered), Finish(i)];
    assert es[1..] == [Finish(i)] && [Finish(i)][1..] == [];
    assert Settled(t, {}) == t && Applied(w.remote, t, {}) == w.remote;
    var w1 := After(w, es[0]);
    assert Outcome(w, es) == Outcome(w1, [Finish(i)]) == Outcome(After(w1, Finish(i)), []);
  }
}
