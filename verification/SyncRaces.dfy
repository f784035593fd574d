/**
 Edits that land inside a pass of `sync_once` (`app/model_sync.py`), between any two of its
 requests and writes. Every request of the pass is answered; other installs may write too.
 */
module SyncRaces {
  import opened Keywords
  import opened ModelSync
  import opened Wrappers

  /** How far the pass has got, with what it has read and not yet acted on. */
  datatype Phase =
    | Idle
    | Pushing(todo: Local, asked: Local)                 // `asked`: the row whose request is answered but not yet recorded here
    | Fetched(seen: Remote)
    | Pulling(keys: set<Keyword>, read: Local, seen: Remote)
    | Pruning(keys: set<Keyword>, read: Local, seen: Remote)
    | Over

  datatype World = World(local: Local, remote: Remote, phase: Phase)

  datatype Event =
    | Begin
    | Ask(k: Keyword)
    | Record(k: Keyword)
    | Fetch
    | Read
    | Adopt(k: Keyword)
    | EndPull
    | Drop(k: Keyword)
    | EndPrune
    | Edit(k: Keyword, model: string)
    | Reset(k: Keyword)
    | Elsewhere(k: Keyword, entry: Option<Entry>)         // another install's write to the shared table

  predicate Enabled(w: World, e: Event) {
    match e
    case Begin => w.phase.Idle?
    case Ask(k) => w.phase.Pushing? && w.phase.asked == map[] && k in w.phase.todo
    case Record(k) => w.phase.Pushing? && k in w.phase.asked
    case Fetch => w.phase.Pushing? && w.phase.todo == map[] && w.phase.asked == map[]
    case Read => w.phase.Fetched?
    case Adopt(k) => w.phase.Pulling? && k in w.phase.keys
    case EndPull => w.phase.Pulling? && w.phase.keys == {}
    case Drop(k) => w.phase.Pruning? && k in w.phase.keys
    case EndPrune => w.phase.Pruning? && w.phase.keys == {}
    case Edit(k, model) => ValidKeyword(k) && ValidModel(model)
    case Reset(k) => ValidKeyword(k)
    case Elsewhere(_, _) => true
  }

  function Put<K, V>(m: map<K, V>, k: K, v: Option<V>): map<K, V> {
    if v == None then m - {k} else m[k := v.value]
  }

  function Get<K, V>(m: map<K, V>, k: K): Option<V> {
    if k in m then Some(m[k]) else None
  }

  function PendingRows(t: Local): Local { map k | k in t && !t[k].synced :: t[k] }

  function LocalAfter(w: World, e: Event): Local
    requires Enabled(w, e)
  {
    match e
    case Record(k) => if w.phase.asked[k].model == "" then w.local - {k} else MarkRow(w.local, k)
    case Adopt(k) =>
      if Adopts(w.phase.read, w.phase.seen, k)
      then SetRow(w.local, k, w.phase.seen[k].model, Some(w.phase.seen[k].description), true) else w.local
    case Drop(k) => if Gone(w.phase.read, w.phase.seen, k) then w.local - {k} else w.local
    case Edit(k, model) => SetRow(w.local, k, model, None, false)
    case Reset(k) => ClearRow(w.local, k)
    case _ => w.local
  }

  /** What a push leaves of its keyword in the shared table. */
  function Pushed(row: Row): Option<Entry> {
    if row.model == "" then None else Some(Entry(row.model, row.description))
  }

  function RemoteAfter(w: World, e: Event): Remote
    requires Enabled(w, e)
  {
    match e
    case Ask(k) => Put(w.remote, k, Pushed(w.phase.todo[k]))
    case Elsewhere(k, entry) => Put(w.remote, k, entry)
    case _ => w.remote
  }

  function PhaseAfter(w: World, e: Event): Phase
    requires Enabled(w, e)
  {
    match e
    case Begin => Pushing(PendingRows(w.local), map[])
    case Ask(k) => Pushing(w.phase.todo - {k}, map[k := w.phase.todo[k]])
    case Record(k) => Pushing(w.phase.todo, w.phase.asked - {k})
    case Fetch => Fetched(w.remote)
    case Read => Pulling(w.phase.seen.Keys, w.local, w.phase.seen)
    case Adopt(k) => Pulling(w.phase.keys - {k}, w.phase.read, w.phase.seen)
    case EndPull => Pruning(w.phase.read.Keys, w.phase.read, w.phase.seen)
    case Drop(k) => Pruning(w.phase.keys - {k}, w.phase.read, w.phase.seen)
    case EndPrune => Over
    case _ => w.phase
  }

  function After(w: World, e: Event): World
    requires Enabled(w, e)
  {
    World(LocalAfter(w, e), RemoteAfter(w, e), PhaseAfter(w, e))
  }

  ghost predicate Allowed(w: World, es: seq<Event>)
    decreases |es|
  {
    es == [] || (Enabled(w, es[0]) && Allowed(After(w, es[0]), es[1..]))
  }

  ghost function Outcome(w: World, es: seq<Event>): World
    requires Allowed(w, es)
    decreases |es|
  {
    if es == [] then w else Outcome(After(w, es[0]), es[1..])
  }

  predicate Touches(e: Event, k: Keyword) {
    (e.Edit? || e.Reset? || e.Elsewhere?) && e.k == k
  }

  ghost predicate Untouched(es: seq<Event>, k: Keyword) {
    forall n :: 0 <= n < |es| ==> !Touches(es[n], k)
  }

  // ---- What the pass still has to do to one keyword, and where it will leave it ----

  datatype Spot =
    | Before
    | Queued(sent: Row)
    | Asked(sent: Row)
    | Quiet
    | Have(seen: Option<Entry>)
    | ToPull(read: Option<Row>, seen: Option<Entry>)
    | ToPrune(read: Option<Row>, seen: Option<Entry>)
    | Past

  function SpotOf(w: World, k: Keyword): Spot {
    match w.phase
    case Idle => Before
    case Pushing(todo, asked) => if k in todo then Queued(todo[k]) else if k in asked then Asked(asked[k]) else Quiet
    case Fetched(seen) => Have(Get(seen, k))
    case Pulling(keys, read, seen) => if k in keys then ToPull(Get(read, k), Get(seen, k)) else ToPrune(Get(read, k), Get(seen, k))
    case Pruning(keys, read, seen) => if k in keys then ToPrune(Get(read, k), Get(seen, k)) else Past
    case Over => Past
  }

  predicate Takes(k: Keyword, read: Option<Row>, seen: Option<Entry>) {
    && seen.Some? && Usable(k, seen.value)
    && !(read.Some? && (!read.value.synced || read.value.model == seen.value.model))
  }

  predicate Loses(read: Option<Row>, seen: Option<Entry>) {
    read.Some? && read.value.synced && seen == None
  }

  function Pruned1(row: Option<Row>, read: Option<Row>, seen: Option<Entry>): Option<Row> {
    if Loses(read, seen) then None else row
  }

  function Pulled1(k: Keyword, row: Option<Row>, read: Option<Row>, seen: Option<Entry>): Option<Row> {
    Pruned1(if Takes(k, read, seen) then Some(Row(seen.value.model, seen.value.description, true)) else row, read, seen)
  }

  function Recorded1(row: Option<Row>, sent: Row): Option<Row> {
    if sent.model == "" || row == None then None else Some(row.value.(synced := true))
  }

  function Settled1(k: Keyword, row: Option<Row>, entry: Option<Entry>, sent: Row): Option<Row> {
    Pulled1(k, Recorded1(row, sent), Recorded1(row, sent), entry)
  }

  /** The row the pass will leave, if nothing else touches the keyword any more. */
  function Final(k: Keyword, row: Option<Row>, entry: Option<Entry>, at: Spot): Option<Row> {
    match at
    case Before => if row.Some? && !row.value.synced then Settled1(k, row, Pushed(row.value), row.value)
                   else Pulled1(k, row, row, entry)
    case Queued(sent) => Settled1(k, row, Pushed(sent), sent)
    case Asked(sent) => Settled1(k, row, entry, sent)
    case Quiet => Pulled1(k, row, row, entry)
    case Have(seen) => Pulled1(k, row, row, seen)
    case ToPull(read, seen) => Pulled1(k, row, read, seen)
    case ToPrune(read, seen) => Pruned1(row, read, seen)
    case Past => row
  }

  function Heading(w: World, k: Keyword): Option<Row> {
    Final(k, Get(w.local, k), Get(w.remote, k), SpotOf(w, k))
  }

  /** No keyword is asked for twice, and only what was fetched is pulled. */
  ghost predicate InShape(w: World) {
    match w.phase
    case Pushing(todo, asked) => todo.Keys !! asked.Keys
    case Pulling(keys, read, seen) => keys <= seen.Keys
    case Pruning(keys, read, seen) => keys <= read.Keys
    case _ => true
  }

  lemma StepKeepsShape(w: World, e: Event)
    requires Enabled(w, e) && InShape(w)
    ensures InShape(After(w, e))
  {
  }

  lemma BeginHeads(w: World, k: Keyword)
    requires Enabled(w, Begin)
    ensures Heading(After(w, Begin), k) == Heading(w, k)
  {
  }

  lemma AskHeads(w: World, x: Keyword, k: Keyword)
    requires Enabled(w, Ask(x)) && InShape(w)
    ensures Heading(After(w, Ask(x)), k) == Heading(w, k)
  {
  }

  lemma RecordHeads(w: World, x: Keyword, k: Keyword)
    requires Enabled(w, Record(x)) && InShape(w)
    ensures Heading(After(w, Record(x)), k) == Heading(w, k)
  {
  }

  lemma FetchHeads(w: World, k: Keyword)
    requires Enabled(w, Fetch)
    ensures Heading(After(w, Fetch), k) == Heading(w, k)
  {
  }

  lemma PullStepsHead(w: World, e: Event, k: Keyword)
    requires Enabled(w, e) && InShape(w) && (e.Read? || e.Adopt? || e.EndPull? || e.Drop? || e.EndPrune?)
    ensures Heading(After(w, e), k) == Heading(w, k)
  {
    match e
    case Adopt(x) => AdoptHeads(w, x, k);
    case Drop(x) => DropHeads(w, x, k);
    case _ =>
  }

  lemma AdoptHeads(w: World, x: Keyword, k: Keyword)
    requires Enabled(w, Adopt(x)) && InShape(w)
    ensures Heading(After(w, Adopt(x)), k) == Heading(w, k)
  {
  }

  lemma DropHeads(w: World, x: Keyword, k: Keyword)
    requires Enabled(w, Drop(x)) && InShape(w)
    ensures Heading(After(w, Drop(x)), k) == Heading(w, k)
  {
  }

  lemma StepKeepsHeading(w: World, e: Event, k: Keyword)
    requires Enabled(w, e) && InShape(w) && !Touches(e, k)
    ensures Heading(After(w, e), k) == Heading(w, k)
  {
    match e
    case Begin => BeginHeads(w, k);
    case Ask(x) => AskHeads(w, x, k);
    case Record(x) => RecordHeads(w, x, k);
    case Fetch => FetchHeads(w, k);
    case Edit(x, model) => assert Get(LocalAfter(w, e), k) == Get(w.local, k);
    case Reset(x) => assert Get(LocalAfter(w, e), k) == Get(w.local, k);
    case Elsewhere(x, entry) => assert Get(RemoteAfter(w, e), k) == Get(w.remote, k);
    case _ => PullStepsHead(w, e, k);
  }

  /**
   However the steps of the pass, edits of other keywords and other installs' writes to them are
   interleaved, a keyword nobody touches ends up where it was heading.
   */
  lemma {:induction false} PassArrives(w: World, es: seq<Event>, k: Keyword)
    requires InShape(w) && Allowed(w, es) && Untouched(es, k) && Outcome(w, es).phase.Over?
    ensures Get(Outcome(w, es).local, k) == Heading(w, k)
    decreases |es|
  {
    if es != [] {
      StepKeepsShape(w, es[0]);
      StepKeepsHeading(w, es[0], k);
      assert forall n :: 0 <= n < |es[1..]| ==> es[1..][n] == es[n + 1];
      PassArrives(After(w, es[0]), es[1..], k);
    }
  }

  // ---- An edit at any point of the pass ----

  /** Untouched so far: a push under way is of the row as it stands, and its answer is still in the shared table. */
  ghost predicate Fair(w: World, k: Keyword) {
    && InShape(w)
    && (w.phase.Pushing? && k in w.phase.todo ==> Get(w.local, k) == Some(w.phase.todo[k]) && !w.phase.todo[k].synced)
    && (w.phase.Pushing? && k in w.phase.asked ==>
          && Get(w.local, k) == Some(w.phase.asked[k]) && !w.phase.asked[k].synced
          && Get(w.remote, k) == Pushed(w.phase.asked[k]))
    && (w.phase.Pushing? && k in w.local && k !in w.phase.todo && k !in w.phase.asked ==> w.local[k].synced)
    && (w.phase.Fetched? && k in w.local ==> w.local[k].synced)
    && (k in w.local ==> w.local[k].model == "" || ValidModel(w.local[k].model))
  }

  lemma StepStaysFair(w: World, e: Event, k: Keyword)
    requires Enabled(w, e) && !Touches(e, k) && Fair(w, k)
    ensures Fair(After(w, e), k)
  {
    StepKeepsShape(w, e);
  }

  lemma {:induction false} RunStaysFair(w: World, es: seq<Event>, k: Keyword)
    requires Allowed(w, es) && Untouched(es, k) && Fair(w, k)
    ensures Fair(Outcome(w, es), k)
    decreases |es|
  {
    if es != [] {
      StepStaysFair(w, es[0], k);
      assert forall n :: 0 <= n < |es[1..]| ==> es[1..][n] == es[n + 1];
      RunStaysFair(After(w, es[0]), es[1..], k);
    }
  }

  /**
   When an edit made at this point survives the pass. While the keyword is waiting to be pushed
   or recorded, only an edit to the very model being pushed does; after the pass has read the
   local table, one survives unless the pass still has its own write or removal of it to make.
   */
  predicate EditHolds(at: Spot, k: Keyword, model: string) {
    match at
    case Queued(sent) => sent.model == model
    case Asked(sent) => sent.model == model
    case ToPull(read, seen) => if Takes(k, read, seen) then seen.value.model == model else !Loses(read, seen)
    case ToPrune(read, seen) => !Loses(read, seen)
    case _ => true
  }

  lemma EditHeads(w: World, k: Keyword, model: string)
    requires ValidKeyword(k) && ValidModel(model) && Fair(w, k)
    ensures var end := Heading(After(w, Edit(k, model)), k);
      end.Some? && end.value.model == model <==> EditHolds(SpotOf(w, k), k, model)
  {
    EmptyIsNoModel();
    EditRow(w, k, model);
    var row := Get(After(w, Edit(k, model)).local, k).value;
    match SpotOf(w, k)
    case Before => EditSettles(k, row, row);
    case Queued(sent) => EditSettles(k, row, sent);
    case Asked(sent) => EditSettles(k, row, sent);
    case _ =>
  }

  lemma EditRow(w: World, k: Keyword, model: string)
    requires ValidKeyword(k) && ValidModel(model)
    ensures var w' := After(w, Edit(k, model));
      && Get(w'.local, k).Some? && Get(w'.local, k).value.model == model && !Get(w'.local, k).value.synced
      && SpotOf(w', k) == SpotOf(w, k) && Get(w'.remote, k) == Get(w.remote, k)
  {
  }

  /** The edited row is recorded as shared while the table holds what was pushed, and the pull puts that right. */
  lemma EditSettles(k: Keyword, row: Row, sent: Row)
    requires ValidKeyword(k) && ValidModel(row.model) && (sent.model == "" || ValidModel(sent.model))
    ensures var end := Settled1(k, Some(row), Pushed(sent), sent);
      end.Some? && end.value.model == row.model <==> sent.model == row.model
  {
    EmptyIsNoModel();
  }

  /** One edit, at any point of one answered pass that nothing else of that keyword meets. */
  lemma EditSurvivesIff(w: World, before: seq<Event>, after: seq<Event>, k: Keyword, model: string)
    requires w.phase.Idle? && (k in w.local ==> w.local[k].model == "" || ValidModel(w.local[k].model))
    requires Allowed(w, before) && Untouched(before, k) && Enabled(Outcome(w, before), Edit(k, model))
    requires Allowed(After(Outcome(w, before), Edit(k, model)), after) && Untouched(after, k)
    requires Outcome(After(Outcome(w, before), Edit(k, model)), after).phase.Over?
    ensures var end := Outcome(After(Outcome(w, before), Edit(k, model)), after).local;
      k in end && end[k].model == model <==> EditHolds(SpotOf(Outcome(w, before), k), k, model)
  {
    RunStaysFair(w, before, k);
    var mid := Outcome(w, before);
    EditHeads(mid, k, model);
    StepKeepsShape(mid, Edit(k, model));
    PassArrives(After(mid, Edit(k, model)), after, k);
  }

  /** A push of the keyword as it stood before the edit is what undoes it: exactly then it is lost while pushing. */
  lemma LostWhilePushingIff(w: World, k: Keyword, model: string)
    requires w.phase.Pushing? && Fair(w, k) && ValidKeyword(k) && ValidModel(model)
    ensures !EditHolds(SpotOf(w, k), k, model)
       <==> k in w.local && !w.local[k].synced && w.local[k].model != model
  {
  }

  /** When a reset made at this point survives: the keyword ends up meaning its default. */
  predicate ResetHolds(at: Spot, k: Keyword, row: Option<Row>, entry: Option<Entry>) {
    match at
    case Before => (row.Some? && row.value.synced) || !Takes(k, None, entry)
    case Queued(sent) => sent.model == ""
    case Asked(sent) => sent.model == ""
    case Quiet => row.Some? || !Takes(k, None, entry)
    case Have(seen) => row.Some? || !Takes(k, None, seen)
    case ToPull(read, seen) => !Takes(k, read, seen)
    case _ => true
  }

  lemma ResetRow(w: World, k: Keyword)
    requires ValidKeyword(k)
    ensures Get(After(w, Reset(k)).local, k) == Cleared1(Get(w.local, k)) && SpotOf(After(w, Reset(k)), k) == SpotOf(w, k)
  {
  }

  function Cleared1(row: Option<Row>): Option<Row> {
    if row.Some? && row.value.synced then Some(Row("", row.value.description, false)) else None
  }

  predicate MeansDefault(row: Option<Row>) { row == None || row.value.model == "" }

  lemma ResetHeads(w: World, k: Keyword)
    requires ValidKeyword(k) && Fair(w, k)
    ensures MeansDefault(Heading(After(w, Reset(k)), k)) <==> ResetHolds(SpotOf(w, k), k, Get(w.local, k), Get(w.remote, k))
  {
    EmptyIsNoModel();
    ResetRow(w, k);
    var row, entry := Get(w.local, k), Get(w.remote, k);
    match SpotOf(w, k)
    case Before => ResetReadsIff(k, Cleared1(row), entry);
    case Queued(sent) => ResetSettlesIff(k, sent, Pushed(sent));
    case Asked(sent) => ResetSettlesIff(k, sent, entry);
    case Quiet => ResetReadsIff(k, Cleared1(row), entry);
    case Have(seen) => ResetReadsIff(k, Cleared1(row), seen);
    case _ =>
  }

  lemma ResetReadsIff(k: Keyword, row: Option<Row>, entry: Option<Entry>)
    requires row.Some? ==> row.value.model == "" && !row.value.synced
    ensures MeansDefault(Pulled1(k, row, row, entry)) <==> row.Some? || !Takes(k, None, entry)
    ensures row.Some? ==> Settled1(k, row, Pushed(row.value), row.value) == None
  {
    EmptyIsNoModel();
  }

  lemma ResetSettlesIff(k: Keyword, sent: Row, entry: Option<Entry>)
    requires ValidKeyword(k) && entry == Pushed(sent) && (sent.model == "" || ValidModel(sent.model))
    ensures MeansDefault(Settled1(k, None, entry, sent)) <==> sent.model == ""
  {
    EmptyIsNoModel();
  }

  /** One reset, at any point of one answered pass that nothing else of that keyword meets. */
  lemma ResetSurvivesIff(w: World, before: seq<Event>, after: seq<Event>, k: Keyword)
    requires w.phase.Idle? && (k in w.local ==> w.local[k].model == "" || ValidModel(w.local[k].model))
    requires Allowed(w, before) && Untouched(before, k) && Enabled(Outcome(w, before), Reset(k))
    requires Allowed(After(Outcome(w, before), Reset(k)), after) && Untouched(after, k)
    requires Outcome(After(Outcome(w, before), Reset(k)), after).phase.Over?
    ensures var mid, end := Outcome(w, before), Outcome(After(Outcome(w, before), Reset(k)), after).local;
      k !in end || end[k].model == "" <==> ResetHolds(SpotOf(mid, k), k, Get(mid.local, k), Get(mid.remote, k))
  {
    RunStaysFair(w, before, k);
    var mid := Outcome(w, before);
    ResetHeads(mid, k);
    StepKeepsShape(mid, Reset(k));
    PassArrives(After(mid, Reset(k)), after, k);
  }

  // ---- The shared table, and the whole pass without edits ----

  /** The entry the pass will leave in the shared table, if nothing else touches the keyword any more. */
  function RemoteHeading(w: World, k: Keyword): Option<Entry> {
    match SpotOf(w, k)
    case Before => if k in w.local && !w.local[k].synced then Pushed(w.local[k]) else Get(w.remote, k)
    case Queued(sent) => Pushed(sent)
    case _ => Get(w.remote, k)
  }

  lemma AskPushes(w: World, x: Keyword, k: Keyword)
    requires Enabled(w, Ask(x)) && InShape(w)
    ensures RemoteHeading(After(w, Ask(x)), k) == RemoteHeading(w, k)
  {
  }

  lemma PassStepsShare(w: World, e: Event, k: Keyword)
    requires Enabled(w, e) && InShape(w) && !e.Begin? && !e.Ask? && !e.Edit? && !e.Reset? && !e.Elsewhere?
    ensures RemoteHeading(After(w, e), k) == RemoteHeading(w, k)
  {
  }

  lemma BeginShares(w: World, k: Keyword)
    requires Enabled(w, Begin)
    ensures RemoteHeading(After(w, Begin), k) == RemoteHeading(w, k)
  {
  }

  lemma StepKeepsRemoteHeading(w: World, e: Event, k: Keyword)
    requires Enabled(w, e) && InShape(w) && !Touches(e, k)
    ensures RemoteHeading(After(w, e), k) == RemoteHeading(w, k)
  {
    match e
    case Begin => BeginShares(w, k);
    case Ask(x) => AskPushes(w, x, k);
    case Edit(x, model) => assert Get(LocalAfter(w, e), k) == Get(w.local, k);
    case Reset(x) => assert Get(LocalAfter(w, e), k) == Get(w.local, k);
    case Elsewhere(x, entry) => assert Get(RemoteAfter(w, e), k) == Get(w.remote, k);
    case _ => PassStepsShare(w, e, k);
  }

  /** What a pass leaves of an untouched keyword in the shared table does not depend on the interleaving either. */
  lemma {:induction false} PassLeavesShared(w: World, es: seq<Event>, k: Keyword)
    requires InShape(w) && Allowed(w, es) && Untouched(es, k) && Outcome(w, es).phase.Over?
    ensures Get(Outcome(w, es).remote, k) == RemoteHeading(w, k)
    decreases |es|
  {
    if es != [] {
      StepKeepsShape(w, es[0]);
      StepKeepsRemoteHeading(w, es[0], k);
      assert forall n :: 0 <= n < |es[1..]| ==> es[1..][n] == es[n + 1];
      PassLeavesShared(After(w, es[0]), es[1..], k);
    }
  }

  lemma HeadsForFullPass(s: Tables, k: Keyword)
    ensures Heading(World(s.local, s.remote, Idle), k) == Get(FullPass(s).local, k)
  {
  }

  lemma SharesForFullPass(s: Tables, k: Keyword)
    ensures RemoteHeading(World(s.local, s.remote, Idle), k) == Get(FullPass(s).remote, k)
  {
  }

  lemma SameTable<V>(a: map<Keyword, V>, b: map<Keyword, V>)
    requires forall k :: Get(a, k) == Get(b, k)
    ensures a == b
  {
    assert forall k :: k in a <==> Get(a, k).Some?;
    assert forall k :: k in b <==> Get(b, k).Some?;
  }

  lemma UndisturbedIsFullPass(s: Tables, es: seq<Event>)
    requires Allowed(World(s.local, s.remote, Idle), es) && forall k :: Untouched(es, k)
    requires Outcome(World(s.local, s.remote, Idle), es).phase.Over?
    ensures var end := Outcome(World(s.local, s.remote, Idle), es); Tables(end.local, end.remote) == FullPass(s)
  {
    var w := World(s.local, s.remote, Idle);
    var end, full := Outcome(w, es), FullPass(s);
    forall k ensures Get(end.local, k) == Get(full.local, k) && Get(end.remote, k) == Get(full.remote, k) {
      HeadsForFullPass(s, k);
      SharesForFullPass(s, k);
      PassArrives(w, es, k);
      PassLeavesShared(w, es, k);
    }
    SameTable(end.local, full.local);
    SameTable(end.remote, full.remote);
  }

  // ---- Runs that show it ----

  /** The steps of one pass that are left, from whatever point it has reached. */
  lemma {:induction false} PassCanEnd(w: World) returns (es: seq<Event>)
    requires InShape(w)
    ensures Allowed(w, es) && Outcome(w, es).phase.Over? && forall k :: Untouched(es, k)
    decreases StagesLeft(w.phase), Remaining(w.phase)
  {
    if w.phase.Over? {
      es := [];
    } else {
      var e := NextStep(w);
      StepKeepsShape(w, e);
      var rest := PassCanEnd(After(w, e));
      es := [e] + rest;
      assert es[1..] == rest;
      forall k ensures Untouched(es, k) {
        assert Untouched(rest, k) && !Touches(e, k);
        assert forall n :: 0 < n < |es| ==> es[n] == rest[n - 1];
      }
    }
  }

  function StagesLeft(p: Phase): nat {
    match p
    case Idle => 5
    case Pushing(_, _) => 4
    case Fetched(_) => 3
    case Pulling(_, _, _) => 2
    case Pruning(_, _, _) => 1
    case Over => 0
  }

  /** What the stage still has to get through; a push counts once before it is asked for and once until it is recorded. */
  function Remaining(p: Phase): nat {
    match p
    case Pushing(todo, asked) => 2 * |todo.Keys| + |asked.Keys|
    case Pulling(keys, _, _) => |keys|
    case Pruning(keys, _, _) => |keys|
    case _ => 0
  }

  lemma NextStep(w: World) returns (e: Event)
    requires InShape(w) && !w.phase.Over?
    ensures Enabled(w, e) && forall k :: !Touches(e, k)
    ensures var q := After(w, e).phase;
      StagesLeft(q) < StagesLeft(w.phase) || (StagesLeft(q) == StagesLeft(w.phase) && Remaining(q) < Remaining(w.phase))
  {
    match w.phase {
      case Idle => e := Begin;
      case Pushing(todo, asked) => e := NextPush(w);
      case Fetched(_) => e := Read;
      case Pulling(keys, _, _) => e := NextPull(w);
      case Pruning(keys, _, _) => e := NextDrop(w);
    }
  }

  lemma NextPush(w: World) returns (e: Event)
    requires InShape(w) && w.phase.Pushing?
    ensures Enabled(w, e) && forall k :: !Touches(e, k)
    ensures var q := After(w, e).phase; q.Fetched? || (q.Pushing? && Remaining(q) < Remaining(w.phase))
  {
    if asked: Keyword :| asked in w.phase.asked {
      e := Record(asked);
      assert After(w, e).phase.asked.Keys == w.phase.asked.Keys - {asked};
    } else if next: Keyword :| next in w.phase.todo {
      e := Ask(next);
      assert w.phase.asked == map[];
      assert After(w, e).phase.todo.Keys == w.phase.todo.Keys - {next};
    } else {
      assert w.phase.todo == map[] && w.phase.asked == map[];
      e := Fetch;
    }
  }

  lemma NextPull(w: World) returns (e: Event)
    requires w.phase.Pulling?
    ensures Enabled(w, e) && forall k :: !Touches(e, k)
    ensures var q := After(w, e).phase; q.Pruning? || (q.Pulling? && Remaining(q) < Remaining(w.phase))
  {
    if next: Keyword :| next in w.phase.keys {
      e := Adopt(next);
    } else {
      e := EndPull;
    }
  }

  lemma NextDrop(w: World) returns (e: Event)
    requires w.phase.Pruning?
    ensures Enabled(w, e) && forall k :: !Touches(e, k)
    ensures var q := After(w, e).phase; q.Over? || (q.Pruning? && Remaining(q) < Remaining(w.phase))
  {
    if next: Keyword :| next in w.phase.keys {
      e := Drop(next);
    } else {
      e := EndPrune;
    }
  }

  /** The pass has begun and asked for `k`, which was pending with a model, and has yet to record the answer. */
  lemma AskedFirst(w: World, k: Keyword) returns (before: seq<Event>)
    requires w.phase.Idle? && k in w.local && !w.local[k].synced
    ensures Allowed(w, before) && Untouched(before, k) && InShape(Outcome(w, before))
    ensures SpotOf(Outcome(w, before), k) == Asked(w.local[k])
    ensures Get(Outcome(w, before).local, k) == Some(w.local[k]) && Get(Outcome(w, before).remote, k) == Pushed(w.local[k])
  {
    before := [Begin, Ask(k)];
    var begun := After(w, Begin);
    assert before[1..] == [Ask(k)] && [Ask(k)][1..] == [];
    assert Allowed(After(begun, Ask(k)), []) && Outcome(After(begun, Ask(k)), []) == After(begun, Ask(k));
  }

  /**
   For every table and every pending row there is a pass that loses an edit of it: the edit falls
   between the request and its record, and the pull brings the pushed model back.
   */
  lemma EditDuringPushIsLost(w: World, k: Keyword, model: string) returns (before: seq<Event>, after: seq<Event>)
    requires w.phase.Idle? && ValidKeyword(k) && ValidModel(model)
    requires k in w.local && !w.local[k].synced && ValidModel(w.local[k].model) && w.local[k].model != model
    ensures Allowed(w, before) && Untouched(before, k) && Enabled(Outcome(w, before), Edit(k, model))
    ensures var edited := After(Outcome(w, before), Edit(k, model));
      && Allowed(edited, after) && Untouched(after, k) && Outcome(edited, after).phase.Over?
      && k in Outcome(edited, after).local && Outcome(edited, after).local[k].model == w.local[k].model
  {
    EmptyIsNoModel();
    before := AskedFirst(w, k);
    var mid := Outcome(w, before);
    var edited := After(mid, Edit(k, model));
    StepKeepsShape(mid, Edit(k, model));
    after := PassCanEnd(edited);
    PassArrives(edited, after, k);
    EditRow(mid, k, model);
  }

  /** Likewise a reset of it: its row is gone when the push is recorded, and the pull brings the keyword back. */
  lemma ResetDuringPushIsUndone(w: World, k: Keyword) returns (before: seq<Event>, after: seq<Event>)
    requires w.phase.Idle? && ValidKeyword(k) && k in w.local && !w.local[k].synced && ValidModel(w.local[k].model)
    ensures Allowed(w, before) && Untouched(before, k) && Enabled(Outcome(w, before), Reset(k))
    ensures var cleared := After(Outcome(w, before), Reset(k));
      && Allowed(cleared, after) && Untouched(after, k) && Outcome(cleared, after).phase.Over?
      && k in Outcome(cleared, after).local && Outcome(cleared, after).local[k].model == w.local[k].model
  {
    EmptyIsNoModel();
    before := AskedFirst(w, k);
    var mid := Outcome(w, before);
    var cleared := After(mid, Reset(k));
    StepKeepsShape(mid, Reset(k));
    after := PassCanEnd(cleared);
    PassArrives(cleared, after, k);
    ResetRow(mid, k);
  }

  /** And after the local table has been read, an edit of a row that the shared table disagrees with. */
  lemma EditDuringPullIsLost(w: World, k: Keyword, model: string) returns (after: seq<Event>)
    requires InShape(w) && w.phase.Pulling? && k in w.phase.keys && Adopts(w.phase.read, w.phase.seen, k)
    requires ValidKeyword(k) && ValidModel(model) && w.phase.seen[k].model != model
    ensures var edited := After(w, Edit(k, model));
      && Allowed(edited, after) && Untouched(after, k) && Outcome(edited, after).phase.Over?
      && k in Outcome(edited, after).local && Outcome(edited, after).local[k].model == w.phase.seen[k].model
  {
    var edited := After(w, Edit(k, model));
    StepKeepsShape(w, Edit(k, model));
    after := PassCanEnd(edited);
    PassArrives(edited, after, k);
    EditRow(w, k, model);
  }

  /** An entry another install writes before the pass has fetched, for a keyword with no row here, arrives with the pass. */
  lemma SharedEntryArrives(w: World, k: Keyword, entry: Entry, es: seq<Event>)
    requires InShape(w) && (w.phase.Idle? || w.phase.Pushing?) && k !in w.local && Usable(k, entry)
    requires SpotOf(w, k).Before? || SpotOf(w, k).Quiet?
    requires Allowed(After(w, Elsewhere(k, Some(entry))), es) && Untouched(es, k)
    requires Outcome(After(w, Elsewhere(k, Some(entry))), es).phase.Over?
    ensures var end := Outcome(After(w, Elsewhere(k, Some(entry))), es).local;
      k in end && end[k] == Row(entry.model, entry.description, true)
  {
    var written := After(w, Elsewhere(k, Some(entry)));
    StepKeepsShape(w, Elsewhere(k, Some(entry)));
    assert Get(written.remote, k) == Some(entry) && SpotOf(written, k) == SpotOf(w, k);
    PassArrives(written, es, k);
  }
}
