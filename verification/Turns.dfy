/**
 One connection of `app/main.py`: the receive loop, its turn tasks, barge-in, disconnect and
 the push deliverer, as a machine over the steps that run without interruption. What they
 write ends up, in order, on one wire.
 */
module Turns {
  import opened Wrappers

  /** Frames a turn writes carry its number; `Aside` is any other JSON of the turn (deltas, activity, questions). */
  datatype Frame =
    | Transcript(turn: nat)
    | Thinking(turn: nat, on: bool)
    | Aside(turn: nat)
    | Chunk(turn: nat, index: nat)
    | Bytes(turn: nat, index: nat)
    | Complete(turn: nat, spoken: nat)
    | Failed(turn: nat)
    | Control
    | Push

  predicate OfTurn(f: Frame, t: nat) {
    !f.Control? && !f.Push? && f.turn == t
  }

  /** How far a turn task has got; each phase names the write it is about to make. */
  datatype Phase =
    | Hearing
    | Heard
    | Talking(next: nat)
    | Chunked(next: nat)
    | Ending(spoken: nat)
    | Ended(spoken: nat)
    | Remembering
    | Unwinding(hush: bool, err: bool)
    | Done

  datatype Task = Task(phase: Phase, cancelled: bool)

  datatype Step =
    | SayTranscript | SayThinking | SayAside | SayChunk | SayBytes | EndStream
    | SayQuiet | SayComplete | Finish | Raise(err: bool) | UnwindQuiet | UnwindError | Unwound

  predicate CanStep(task: Task, step: Step) {
    match step
    case SayTranscript => task.phase.Hearing?
    case SayThinking => task.phase.Heard?
    case SayAside => task.phase.Talking?
    case SayChunk => task.phase.Talking?
    case SayBytes => task.phase.Chunked?
    case EndStream => task.phase.Talking?
    case SayQuiet => task.phase.Ending?
    case SayComplete => task.phase.Ended?
    case Finish => task.phase.Remembering?
    case Raise(err) => !task.phase.Done? && (task.phase.Unwinding? ==> task.phase.hush) && (err || task.cancelled)
    case UnwindQuiet => task.phase.Unwinding? && task.phase.hush
    case UnwindError => task.phase.Unwinding? && !task.phase.hush && task.phase.err
    case Unwound => task.phase.Unwinding?
  }

  function Next(task: Task, step: Step): Phase
    requires CanStep(task, step)
  {
    match step
    case SayTranscript => Heard
    case SayThinking => Talking(0)
    case SayAside => task.phase
    case SayChunk => Chunked(task.phase.next)
    case SayBytes => Talking(task.phase.next + 1)
    case EndStream => Ending(task.phase.next)
    case SayQuiet => Ended(task.phase.spoken)
    case SayComplete => Remembering
    case Finish => Done
    case Raise(err) => Unwinding(task.phase.Talking? || task.phase.Chunked?, err)
    case UnwindQuiet => task.phase.(hush := false)
    case UnwindError => Done
    case Unwound => Done
  }

  function Written(task: Task, t: nat, step: Step): seq<Frame>
    requires CanStep(task, step)
  {
    match step
    case SayTranscript => [Transcript(t)]
    case SayThinking => [Thinking(t, true)]
    case SayAside => [Aside(t)]
    case SayChunk => [Chunk(t, task.phase.next)]
    case SayBytes => [Bytes(t, task.phase.next)]
    case SayQuiet => [Thinking(t, false)]
    case UnwindQuiet => [Thinking(t, false)]
    case SayComplete => [Complete(t, task.phase.spoken)]
    case UnwindError => [Failed(t)]
    case _ => []
  }

  /** What the receive loop does once the turn it cancelled has finished. */
  datatype Then = Start | Nothing | Close

  datatype Loop = Free | Cancelling(next: Then) | Stopped

  /** `held` counts pushes whose idle check has passed but that wait behind another sink's send. */
  datatype Conn = Conn(tasks: seq<Task>, current: Option<nat>, loop: Loop, held: nat, wire: seq<Frame>)

  const START := Conn([], None, Free, 0, [Control, Control, Control, Control])

  datatype Event =
    | Turn(t: nat, step: Step)
    | Receive(next: Then)          // an admitted utterance, an interrupt, a disconnect
    | Resume                       // the cancelled turn is over
    | Say                          // any frame of the receive loop's own
    | Deliver(ahead: nat)          // the idle check, with `ahead` sinks to be written to first
    | Release                      // those sends are over

  predicate IsIdle(c: Conn) {
    c.current == None || (c.current.value < |c.tasks| && c.tasks[c.current.value].phase.Done?)
  }

  predicate Enabled(c: Conn, e: Event) {
    match e
    case Turn(t, step) => t < |c.tasks| && CanStep(c.tasks[t], step)
    case Receive(_) => c.loop.Free?
    case Resume => c.loop.Cancelling? && IsIdle(c)
    case Say => c.loop.Free?
    case Deliver(_) => !c.loop.Stopped? && IsIdle(c)
    case Release => c.held > 0
  }

  function TasksAfter(c: Conn, e: Event): seq<Task>
    requires Enabled(c, e)
  {
    match e
    case Turn(t, step) => c.tasks[t := c.tasks[t].(phase := Next(c.tasks[t], step))]
    case Receive(_) =>
      if IsIdle(c) || c.current.value >= |c.tasks| then c.tasks
      else c.tasks[c.current.value := c.tasks[c.current.value].(cancelled := true)]
    case Resume => if c.loop.next.Start? then c.tasks + [Task(Hearing, false)] else c.tasks
    case _ => c.tasks
  }

  function WrittenBy(c: Conn, e: Event): seq<Frame>
    requires Enabled(c, e)
  {
    match e
    case Turn(t, step) => Written(c.tasks[t], t, step)
    case Say => [Control]
    case Deliver(ahead) => if ahead == 0 then [Push] else []
    case Release => [Push]
    case _ => []
  }

  function After(c: Conn, e: Event): Conn
    requires Enabled(c, e)
  {
    var d := c.(tasks := TasksAfter(c, e), wire := c.wire + WrittenBy(c, e));
    match e
    case Receive(next) => d.(loop := Cancelling(next))
    case Resume =>
      d.(current := if c.loop.next.Start? then Some(|c.tasks|) else None,
         loop := if c.loop.next.Close? then Stopped else Free)
    case Deliver(ahead) => if ahead > 0 then d.(held := c.held + 1) else d
    case Release => d.(held := c.held - 1)
    case _ => d
  }

  ghost predicate Allowed(c: Conn, es: seq<Event>)
    decreases |es|
  {
    es == [] || (Enabled(c, es[0]) && Allowed(After(c, es[0]), es[1..]))
  }

  ghost function Outcome(c: Conn, es: seq<Event>): Conn
    requires Allowed(c, es)
    decreases |es|
  {
    if es == [] then c else Outcome(After(c, es[0]), es[1..])
  }

  // ---- At most one turn at a time ----

  ghost predicate OneAtATime(c: Conn) {
    && (c.current.Some? ==> c.current.value == |c.tasks| - 1)
    && forall t :: 0 <= t < |c.tasks| && c.current != Some(t) ==> c.tasks[t].phase.Done?
  }

  lemma StepKeepsOne(c: Conn, e: Event)
    requires Enabled(c, e) && OneAtATime(c)
    ensures OneAtATime(After(c, e))
    ensures WrittenBy(c, e) == [] || e.Say? || e.Deliver? || e.Release? || (e.Turn? && c.current == Some(e.t) && e.t == |c.tasks| - 1)
  {
  }

  // ---- What is on the wire ----

  function ChunksOf(wire: seq<Frame>, t: nat): nat {
    if wire == [] then 0
    else ChunksOf(wire[..|wire| - 1], t) + if wire[|wire| - 1].Chunk? && wire[|wire| - 1].turn == t then 1 else 0
  }

  function BytesOf(wire: seq<Frame>, t: nat): nat {
    if wire == [] then 0
    else BytesOf(wire[..|wire| - 1], t) + if wire[|wire| - 1].Bytes? && wire[|wire| - 1].turn == t then 1 else 0
  }

  /** The most recent `audio_chunk`, if there is one. */
  function LastChunk(wire: seq<Frame>): Option<Frame> {
    if wire == [] then None
    else if wire[|wire| - 1].Chunk? then Some(wire[|wire| - 1])
    else LastChunk(wire[..|wire| - 1])
  }

  /** What the frame says about those before it. */
  ghost predicate Fits(before: seq<Frame>, f: Frame) {
    match f
    case Chunk(t, i) => i == ChunksOf(before, t)
    case Bytes(t, i) => i == BytesOf(before, t) && LastChunk(before) == Some(Chunk(t, i))
    case Complete(t, n) => n == BytesOf(before, t) == ChunksOf(before, t)
    case _ => true
  }

  ghost predicate Disciplined(wire: seq<Frame>) {
    wire == [] || (Disciplined(wire[..|wire| - 1]) && Fits(wire[..|wire| - 1], wire[|wire| - 1]))
  }

  /** The phase agrees with what the turn has written. */
  ghost predicate Agrees(wire: seq<Frame>, t: nat, phase: Phase) {
    match phase
    case Hearing => ChunksOf(wire, t) == BytesOf(wire, t) == 0
    case Heard => ChunksOf(wire, t) == BytesOf(wire, t) == 0
    case Talking(n) => ChunksOf(wire, t) == BytesOf(wire, t) == n
    case Chunked(n) => ChunksOf(wire, t) == n + 1 && BytesOf(wire, t) == n && LastChunk(wire) == Some(Chunk(t, n))
    case Ending(n) => ChunksOf(wire, t) == BytesOf(wire, t) == n
    case Ended(n) => ChunksOf(wire, t) == BytesOf(wire, t) == n
    case _ => true
  }

  ghost predicate AllAgree(wire: seq<Frame>, tasks: seq<Task>) {
    forall t :: 0 <= t < |tasks| ==> Agrees(wire, t, tasks[t].phase)
  }

  /** Every turn on the wire is one of the first `n`. */
  ghost predicate Known(wire: seq<Frame>, n: nat) {
    forall p :: 0 <= p < |wire| ==> wire[p].Control? || wire[p].Push? || wire[p].turn < n
  }

  ghost predicate Silent(wire: seq<Frame>, t: nat) {
    ChunksOf(wire, t) == BytesOf(wire, t) == 0
  }

  ghost predicate Orderly(c: Conn) {
    && OneAtATime(c) && Disciplined(c.wire) && AllAgree(c.wire, c.tasks) && Known(c.wire, |c.tasks|)
    && forall t: nat :: |c.tasks| <= t ==> Silent(c.wire, t)
  }

  lemma OneMore(wire: seq<Frame>, f: Frame, t: nat)
    ensures ChunksOf(wire + [f], t) == ChunksOf(wire, t) + if f.Chunk? && f.turn == t then 1 else 0
    ensures BytesOf(wire + [f], t) == BytesOf(wire, t) + if f.Bytes? && f.turn == t then 1 else 0
    ensures LastChunk(wire + [f]) == if f.Chunk? then Some(f) else LastChunk(wire)
    ensures Disciplined(wire + [f]) <==> Disciplined(wire) && Fits(wire, f)
  {
    assert (wire + [f])[..|wire|] == wire;
  }

  lemma WriterFits(c: Conn, e: Event)
    requires Enabled(c, e) && Orderly(c)
    ensures forall f :: f in WrittenBy(c, e) ==> Fits(c.wire, f)
  {
    if e.Turn? {
      assert Agrees(c.wire, e.t, c.tasks[e.t].phase);
    }
  }

  /** A frame that is no chunk or audio of turn `t` leaves it where it was, unless it is a chunk cutting in. */
  lemma OthersDoNotMatter(wire: seq<Frame>, f: Frame, t: nat, phase: Phase)
    requires Agrees(wire, t, phase) && !OfTurn(f, t) && (phase.Chunked? ==> !f.Chunk?)
    ensures Agrees(wire + [f], t, phase)
  {
    OneMore(wire, f, t);
  }

  lemma StepAgrees(wire: seq<Frame>, task: Task, t: nat, step: Step)
    requires CanStep(task, step) && Agrees(wire, t, task.phase)
    ensures Agrees(wire + Written(task, t, step), t, Next(task, step))
  {
    var w := Written(task, t, step);
    if w == [] {
      assert wire + w == wire;
    } else {
      assert w == [w[0]];
      OneMore(wire, w[0], t);
    }
  }

  lemma TurnAgrees(c: Conn, e: Event, t: nat)
    requires Enabled(c, e) && Orderly(c) && t < |c.tasks|
    ensures t < |TasksAfter(c, e)| && Agrees(c.wire + WrittenBy(c, e), t, TasksAfter(c, e)[t].phase)
  {
    assert Agrees(c.wire, t, c.tasks[t].phase);
    if e.Turn? && e.t == t {
      StepAgrees(c.wire, c.tasks[t], t, e.step);
    } else {
      SamePhase(c, e, t);
      OthersWrite(c, e, t);
    }
  }

  lemma SamePhase(c: Conn, e: Event, t: nat)
    requires Enabled(c, e) && t < |c.tasks| && !(e.Turn? && e.t == t)
    ensures t < |TasksAfter(c, e)| && TasksAfter(c, e)[t].phase == c.tasks[t].phase
  {
  }

  /** Frames of anyone else: while turn `t` is live these are no turn's, and once it is done any will do. */
  lemma OthersWrite(c: Conn, e: Event, t: nat)
    requires Enabled(c, e) && OneAtATime(c) && t < |c.tasks| && !(e.Turn? && e.t == t)
    requires Agrees(c.wire, t, c.tasks[t].phase)
    ensures Agrees(c.wire + WrittenBy(c, e), t, c.tasks[t].phase)
  {
    var w := WrittenBy(c, e);
    if w == [] {
      assert c.wire + w == c.wire;
    } else {
      assert w == [w[0]] && !OfTurn(w[0], t);
      OthersDoNotMatter(c.wire, w[0], t, c.tasks[t].phase);
    }
  }

  lemma FreshTurnsAreSilent(c: Conn, e: Event, t: nat)
    requires Enabled(c, e) && Orderly(c) && |c.tasks| <= t
    ensures Silent(After(c, e).wire, t)
  {
    assert Silent(c.wire, t);
    var w := WrittenBy(c, e);
    if w == [] {
      assert c.wire + w == c.wire;
    } else {
      assert w == [w[0]] && !OfTurn(w[0], t);
      OneMore(c.wire, w[0], t);
    }
  }

  lemma WireStaysDisciplined(c: Conn, e: Event)
    requires Enabled(c, e) && Orderly(c)
    ensures Disciplined(After(c, e).wire)
  {
    var w := WrittenBy(c, e);
    WriterFits(c, e);
    if w == [] {
      assert c.wire + w == c.wire;
    } else {
      assert w == [w[0]];
      OneMore(c.wire, w[0], 0);
    }
  }

  lemma WritersAreKnown(c: Conn, e: Event)
    requires Enabled(c, e) && Known(c.wire, |c.tasks|)
    ensures Known(After(c, e).wire, |After(c, e).tasks|)
  {
    assert forall f :: f in WrittenBy(c, e) ==> f.Control? || f.Push? || f.turn < |c.tasks|;
  }

  lemma StepKeepsOrder(c: Conn, e: Event)
    requires Enabled(c, e) && Orderly(c)
    ensures Orderly(After(c, e))
  {
    StepKeepsOne(c, e);
    WireStaysDisciplined(c, e);
    WritersAreKnown(c, e);
    var d := After(c, e);
    forall t | 0 <= t < |d.tasks| ensures Agrees(d.wire, t, d.tasks[t].phase) {
      if t < |c.tasks| {
        TurnAgrees(c, e, t);
      } else {
        FreshTurnsAreSilent(c, e, t);
      }
    }
    forall t: nat | |d.tasks| <= t ensures Silent(d.wire, t) {
      FreshTurnsAreSilent(c, e, t);
    }
  }

  lemma StartIsOrderly()
    ensures Orderly(START)
  {
    var w := START.wire;
    assert w[..3] == [Control, Control, Control] && w[..3][..2] == [Control, Control] && w[..3][..2][..1] == [Control];
    forall t: nat ensures Silent(w, t) {
      assert ChunksOf([Control], t) == BytesOf([Control], t) == 0;
      OneMore([Control], Control, t);
      OneMore([Control, Control], Control, t);
      OneMore([Control, Control, Control], Control, t);
    }
    OneMore([Control], Control, 0);
    OneMore([Control, Control], Control, 0);
    OneMore([Control, Control, Control], Control, 0);
    assert Disciplined([Control]);
  }

  lemma {:induction false} RunKeepsOrder(c: Conn, es: seq<Event>)
    requires Allowed(c, es) && Orderly(c)
    ensures Orderly(Outcome(c, es))
    decreases |es|
  {
    if es != [] {
      StepKeepsOrder(c, es[0]);
      RunKeepsOrder(After(c, es[0]), es[1..]);
    }
  }

  lemma {:induction false} FitsAt(wire: seq<Frame>, p: nat)
    requires Disciplined(wire) && p < |wire|
    ensures Fits(wire[..p], wire[p])
  {
    if p < |wire| - 1 {
      FitsAt(wire[..|wire| - 1], p);
      assert wire[..|wire| - 1][..p] == wire[..p];
    }
  }

  lemma {:induction false} WhereLastChunkIs(wire: seq<Frame>) returns (q: nat)
    requires LastChunk(wire).Some?
    ensures q < |wire| && wire[q] == LastChunk(wire).value && wire[q].Chunk?
    ensures forall r :: q < r < |wire| ==> !wire[r].Chunk?
  {
    var n := |wire| - 1;
    if wire[n].Chunk? {
      q := n;
    } else {
      q := WhereLastChunkIs(wire[..n]);
      assert forall r :: q < r < n ==> wire[r] == wire[..n][r];
    }
  }

  /**
   Over every interleaving, at most one turn task is live; each binary frame's most recent
   `audio_chunk` is its own, whatever control frames fall between the two; and a turn numbers
   its sentences 0, 1, 2, ... and reports as spoken exactly the ones whose audio was written.
   */
  lemma FrameDiscipline(es: seq<Event>, p: nat) returns (q: nat)
    requires Allowed(START, es) && p < |Outcome(START, es).wire|
    ensures OneAtATime(Outcome(START, es))
    ensures var w := Outcome(START, es).wire;
      && (w[p].Chunk? ==> w[p].index == ChunksOf(w[..p], w[p].turn))
      && (w[p].Complete? ==> w[p].spoken == BytesOf(w[..p], w[p].turn) == ChunksOf(w[..p], w[p].turn))
      && (w[p].Bytes? ==>
            && w[p].index == BytesOf(w[..p], w[p].turn)
            && q < p && w[q] == Chunk(w[p].turn, w[p].index)
            && forall r :: q < r < p ==> !w[r].Chunk?)
  {
    StartIsOrderly();
    RunKeepsOrder(START, es);
    var w := Outcome(START, es).wire;
    FitsAt(w, p);
    q := 0;
    if w[p].Bytes? {
      q := WhereLastChunkIs(w[..p]);
      assert forall r :: q < r < p ==> w[r] == w[..p][r];
    }
  }

  // ---- Turns do not overlap, and pushes stay out of them ----

  ghost predicate InSequence(wire: seq<Frame>) {
    forall p, q, t, u :: 0 <= p < q < |wire| && OfTurn(wire[p], t) && OfTurn(wire[q], u) ==> t <= u
  }

  /** No push has been written since turn `t` began to write. */
  ghost predicate Undisturbed(wire: seq<Frame>, t: nat) {
    forall p, q :: 0 <= p < q < |wire| && OfTurn(wire[p], t) ==> !wire[q].Push?
  }

  ghost predicate NoPushInside(wire: seq<Frame>) {
    forall p, q, r, t :: 0 <= p < q < r < |wire| && OfTurn(wire[p], t) && OfTurn(wire[r], t) ==> !wire[q].Push?
  }

  lemma {:induction false} TurnsInSequence(c: Conn, es: seq<Event>)
    requires Allowed(c, es) && Orderly(c) && InSequence(c.wire)
    ensures InSequence(Outcome(c, es).wire)
    decreases |es|
  {
    if es != [] {
      var d, w := After(c, es[0]), WrittenBy(c, es[0]);
      StepKeepsOne(c, es[0]);
      StepKeepsOrder(c, es[0]);
      assert |w| <= 1;
      forall p, q, t, u | 0 <= p < q < |d.wire| && OfTurn(d.wire[p], t) && OfTurn(d.wire[q], u) ensures t <= u {
        if q < |c.wire| {
          assert d.wire[p] == c.wire[p] && d.wire[q] == c.wire[q];
        }
      }
      TurnsInSequence(d, es[1..]);
    }
  }

  /** No other sink is written to between an idle check and this connection's own frame. */
  ghost predicate OneSink(es: seq<Event>) {
    forall k :: 0 <= k < |es| && es[k].Deliver? ==> es[k].ahead == 0
  }

  ghost predicate Quiet(c: Conn) {
    && c.held == 0 && NoPushInside(c.wire)
    && forall t :: 0 <= t < |c.tasks| && !c.tasks[t].phase.Done? ==> Undisturbed(c.wire, t)
  }

  lemma StepKeepsQuiet(c: Conn, e: Event)
    requires Enabled(c, e) && Orderly(c) && Quiet(c) && (e.Deliver? ==> e.ahead == 0)
    ensures Quiet(After(c, e))
  {
    StepKeepsOne(c, e);
    var d, w := After(c, e), WrittenBy(c, e);
    assert |w| <= 1;
    forall t | 0 <= t < |d.tasks| && !d.tasks[t].phase.Done? ensures Undisturbed(d.wire, t) {
      forall p, q | 0 <= p < q < |d.wire| && OfTurn(d.wire[p], t) ensures !d.wire[q].Push? {
        assert d.wire[p] == c.wire[p];
      }
    }
    forall p, q, r, t | 0 <= p < q < r < |d.wire| && OfTurn(d.wire[p], t) && OfTurn(d.wire[r], t)
      ensures !d.wire[q].Push?
    {
      assert d.wire[p] == c.wire[p] && d.wire[q] == c.wire[q];
      if r < |c.wire| {
        assert d.wire[r] == c.wire[r];
      }
    }
  }

  lemma {:induction false} RunKeepsQuiet(c: Conn, es: seq<Event>)
    requires Allowed(c, es) && Orderly(c) && Quiet(c) && OneSink(es)
    ensures Quiet(Outcome(c, es))
    decreases |es|
  {
    if es != [] {
      StepKeepsQuiet(c, es[0]);
      StepKeepsOrder(c, es[0]);
      assert forall k :: 0 <= k < |es[1..]| ==> es[1..][k] == es[k + 1];
      RunKeepsQuiet(After(c, es[0]), es[1..]);
    }
  }

  /**
   A barge-in's new turn writes nothing before the old one has written its last; and with one
   bound sink no push is written between two frames of the same turn.
   */
  lemma TurnsAreWhole(es: seq<Event>)
    requires Allowed(START, es)
    ensures InSequence(Outcome(START, es).wire)
    ensures OneSink(es) ==> NoPushInside(Outcome(START, es).wire)
  {
    StartIsOrderly();
    TurnsInSequence(START, es);
    if OneSink(es) {
      RunKeepsQuiet(START, es);
    }
  }

  lemma Preceded(c: Conn, e: Event, d: Conn, es: seq<Event>) returns (all: seq<Event>)
    requires Enabled(c, e) && Same(After(c, e), d) && Allowed(d, es)
    ensures Allowed(c, all) && Outcome(c, all) == Outcome(d, es)
    ensures all == [e] + es
  {
    all := [e] + es;
    assert all[1..] == es && After(c, e) == d;
  }

  lemma StillOneSink(e: Event, es: seq<Event>)
    requires OneSink(es) && !e.Deliver?
    ensures OneSink([e] + es)
  {
  }

  ghost predicate Same(c: Conn, d: Conn) {
    c.tasks == d.tasks && c.current == d.current && c.loop == d.loop && c.held == d.held && c.wire == d.wire
  }

  /**
   The condition is needed for every number of sinks ahead: then the check can be stale, and
   the push lands between an `audio_chunk` and its bytes.
   */
  lemma OtherSinksDisturb(ahead: nat) returns (es: seq<Event>, p: nat)
    requires ahead > 0
    ensures Allowed(START, es) && p + 2 < |Outcome(START, es).wire|
    ensures Outcome(START, es).wire[p..p + 3] == [Chunk(0, 0), Push, Bytes(0, 0)]
    ensures !NoPushInside(Outcome(START, es).wire)
  {
    var said := [Control, Control, Control, Control, Transcript(0), Thinking(0, true)];
    var checked := START.(held := 1);
    var started := checked.(tasks := [Task(Hearing, false)], current := Some(0));
    var talking := started.(tasks := [Task(Talking(0), false)], wire := said);
    var disturbed := talking.(tasks := [Task(Chunked(0), false)], held := 0, wire := said + [Chunk(0, 0), Push]);
    var end := disturbed.(tasks := [Task(Talking(1), false)], wire := said + [Chunk(0, 0), Push, Bytes(0, 0)]);
    es := Preceded(disturbed, Turn(0, SayBytes), end, []);
    es := Interrupted(talking, disturbed, es);
    es := Spoken(started, talking, es);
    es := Barged(checked, started, es);
    es := Preceded(START, Deliver(ahead), checked, es);
    p := 6;
    assert OfTurn(end.wire[6], 0) && end.wire[7].Push? && OfTurn(end.wire[8], 0);
  }

  lemma Interrupted(c: Conn, d: Conn, rest: seq<Event>) returns (es: seq<Event>)
    requires c.tasks == [Task(Talking(0), false)] && c.held == 1 && Allowed(d, rest)
    requires d == c.(tasks := [Task(Chunked(0), false)], held := 0, wire := c.wire + [Chunk(0, 0), Push])
    ensures Allowed(c, es) && Outcome(c, es) == Outcome(d, rest)
  {
    var mid := c.(tasks := [Task(Chunked(0), false)], wire := c.wire + [Chunk(0, 0)]);
    es := Preceded(mid, Release, d, rest);
    es := Preceded(c, Turn(0, SayChunk), mid, es);
  }

  lemma Spoken(c: Conn, d: Conn, rest: seq<Event>) returns (es: seq<Event>)
    requires c.tasks == [Task(Hearing, false)] && Allowed(d, rest)
    requires d == c.(tasks := [Task(Talking(0), false)], wire := c.wire + [Transcript(0), Thinking(0, true)])
    ensures Allowed(c, es) && Outcome(c, es) == Outcome(d, rest)
    ensures OneSink(rest) ==> OneSink(es)
  {
    var mid := c.(tasks := [Task(Heard, false)], wire := c.wire + [Transcript(0)]);
    var last := Preceded(mid, Turn(0, SayThinking), d, rest);
    es := Preceded(c, Turn(0, SayTranscript), mid, last);
    if OneSink(rest) {
      StillOneSink(Turn(0, SayThinking), rest);
      StillOneSink(Turn(0, SayTranscript), last);
    }
  }

  lemma Barged(c: Conn, d: Conn, rest: seq<Event>) returns (es: seq<Event>)
    requires c.tasks == [] && c.current == None && c.loop == Free && Allowed(d, rest)
    requires d == c.(tasks := [Task(Hearing, false)], current := Some(0))
    ensures Allowed(c, es) && Outcome(c, es) == Outcome(d, rest)
    ensures OneSink(rest) ==> OneSink(es)
  {
    var mid := c.(loop := Cancelling(Start));
    var last := Preceded(mid, Resume, d, rest);
    es := Preceded(c, Receive(Start), mid, last);
    if OneSink(rest) {
      StillOneSink(Resume, rest);
      StillOneSink(Receive(Start), last);
    }
  }

  // ---- "Immediately followed": an announcement and its bytes side by side ----

  /** The frame is audio and what was written last is not its announcement. */
  ghost predicate Apart(before: seq<Frame>, f: Frame) {
    f.Bytes? && (before == [] || before[|before| - 1] != Chunk(f.turn, f.index))
  }

  ghost predicate SideBySide(wire: seq<Frame>) {
    forall p :: 0 <= p < |wire| ==> !Apart(wire[..p], wire[p])
  }

  /** Whether something else has been written since the last announcement, if it had been (`cut`) before this event. */
  predicate Cuts(cut: bool, e: Event) {
    if e.Say? || e.Release? then true else if e.Turn? && e.step.SayChunk? then false else cut
  }

  /** On the events alone: no reply of the receive loop, and no push held back, falls between an announcement and its bytes. */
  ghost predicate Undivided(es: seq<Event>, cut: bool)
    decreases |es|
  {
    es == [] || (!(cut && es[0].Turn? && es[0].step.SayBytes?) && Undivided(es[1..], Cuts(cut, es[0])))
  }

  /** While a turn owes the bytes of a sentence, `cut` says whether its announcement is no longer the last frame. */
  ghost predicate Watched(c: Conn, cut: bool) {
    forall t :: 0 <= t < |c.tasks| && c.tasks[t].phase.Chunked? ==>
      c.wire != [] && (cut <==> c.wire[|c.wire| - 1] != Chunk(t, c.tasks[t].phase.next))
  }

  lemma StepStaysWatched(c: Conn, e: Event, cut: bool)
    requires Enabled(c, e) && OneAtATime(c) && Watched(c, cut)
    ensures Watched(After(c, e), Cuts(cut, e))
  {
    var d := After(c, e);
    StepKeepsOne(c, e);
    forall t | 0 <= t < |d.tasks| && d.tasks[t].phase.Chunked?
      ensures d.wire != [] && (Cuts(cut, e) <==> d.wire[|d.wire| - 1] != Chunk(t, d.tasks[t].phase.next))
    {
      if e.Turn? && e.t == t {
        assert e.step.SayChunk?;
      } else {
        SamePhase(c, e, t);
        assert c.current == Some(t) && !e.Deliver? && !e.Turn?;
      }
    }
  }

  lemma SideBySideStep(c: Conn, e: Event, cut: bool)
    requires Enabled(c, e) && Watched(c, cut)
    ensures SideBySide(After(c, e).wire) <==> SideBySide(c.wire) && !(cut && e.Turn? && e.step.SayBytes?)
  {
    var w, d := WrittenBy(c, e), After(c, e);
    if w == [] {
      assert d.wire == c.wire;
    } else {
      assert w == [w[0]] && d.wire == c.wire + [w[0]];
      SideBySideSnoc(c.wire, w[0]);
    }
  }

  lemma SideBySideSnoc(wire: seq<Frame>, f: Frame)
    ensures SideBySide(wire + [f]) <==> SideBySide(wire) && !Apart(wire, f)
  {
    var more := wire + [f];
    assert more[..|wire|] == wire && more[|wire|] == f;
    forall p | 0 <= p < |wire| ensures more[..p] == wire[..p] && more[p] == wire[p] {}
  }

  lemma {:induction false} SideBySideFrom(c: Conn, es: seq<Event>, cut: bool)
    requires Allowed(c, es) && OneAtATime(c) && Watched(c, cut)
    ensures SideBySide(Outcome(c, es).wire) <==> SideBySide(c.wire) && Undivided(es, cut)
    decreases |es|
  {
    if es != [] {
      StepKeepsOne(c, es[0]);
      StepStaysWatched(c, es[0], cut);
      SideBySideStep(c, es[0], cut);
      SideBySideFrom(After(c, es[0]), es[1..], Cuts(cut, es[0]));
    }
  }

  /**
   Over every interleaving, each `audio_chunk` whose bytes are written is immediately followed by
   them exactly if neither a reply of the receive loop nor a push held back comes in between.
   */
  lemma FollowedAtOnceIff(es: seq<Event>)
    requires Allowed(START, es)
    ensures SideBySide(Outcome(START, es).wire) <==> Undivided(es, false)
  {
    SideBySideFrom(START, es, false);
  }

  lemma Divided(c: Conn) returns (es: seq<Event>)
    requires c.tasks == [Task(Talking(0), false)] && c.loop == Free
    ensures Allowed(c, es) && OneSink(es)
    ensures Outcome(c, es).wire == c.wire + [Chunk(0, 0), Control, Bytes(0, 0)]
  {
    var announced := c.(tasks := [Task(Chunked(0), false)], wire := c.wire + [Chunk(0, 0)]);
    var divided := announced.(wire := c.wire + [Chunk(0, 0), Control]);
    var end := divided.(tasks := [Task(Talking(1), false)], wire := c.wire + [Chunk(0, 0), Control, Bytes(0, 0)]);
    var bytes := Preceded(divided, Turn(0, SayBytes), end, []);
    StillOneSink(Turn(0, SayBytes), []);
    var reply := Preceded(announced, Say, divided, bytes);
    StillOneSink(Say, bytes);
    es := Preceded(c, Turn(0, SayChunk), announced, reply);
    StillOneSink(Turn(0, SayChunk), reply);
  }

  /** Even with one sink: a reply can fall between the two. */
  lemma RepliesDivide() returns (es: seq<Event>, p: nat)
    ensures Allowed(START, es) && OneSink(es) && p + 2 < |Outcome(START, es).wire|
    ensures Outcome(START, es).wire[p..p + 3] == [Chunk(0, 0), Control, Bytes(0, 0)]
    ensures !SideBySide(Outcome(START, es).wire)
  {
    var started := START.(tasks := [Task(Hearing, false)], current := Some(0));
    var talking := started.(tasks := [Task(Talking(0), false)], wire := START.wire + [Transcript(0), Thinking(0, true)]);
    es := Divided(talking);
    es := Spoken(started, talking, es);
    es := Barged(START, started, es);
    p := 6;
    var wire := Outcome(START, es).wire;
    assert wire == talking.wire + [Chunk(0, 0), Control, Bytes(0, 0)];
    assert Apart(wire[..8], wire[8]);
  }
}
