/**
 What the machine of one connection can do from any point it reaches: take a turn from hearing to
 `turn_complete`, and end one that is interrupted without another word.
 */
module TurnRuns {
  import opened Turns
  import opened Wrappers

  /** The frames of sentences `i` to `n` of turn `t`. */
  function Sentences(t: nat, i: nat, n: nat): seq<Frame>
    decreases n - i
  {
    if i >= n then [] else [Chunk(t, i), Bytes(t, i)] + Sentences(t, i + 1, n)
  }

  lemma {:induction false} SaysSentences(c: Conn, t: nat, i: nat, n: nat, d: Conn, rest: seq<Event>) returns (es: seq<Event>)
    requires t < |c.tasks| && i <= n && c.tasks[t] == Task(Talking(i), false)
    requires d == c.(tasks := c.tasks[t := Task(Talking(n), false)], wire := c.wire + Sentences(t, i, n))
    requires Allowed(d, rest)
    ensures Allowed(c, es) && Outcome(c, es) == Outcome(d, rest)
    decreases n - i
  {
    if i == n {
      assert Same(c, d) by {
        assert c.tasks[t := Task(Talking(n), false)] == c.tasks;
        assert c.wire + Sentences(t, i, n) == c.wire;
      }
      es := rest;
    } else {
      var announced := c.(tasks := c.tasks[t := Task(Chunked(i), false)], wire := c.wire + [Chunk(t, i)]);
      var heard := c.(tasks := c.tasks[t := Task(Talking(i + 1), false)], wire := c.wire + [Chunk(t, i), Bytes(t, i)]);
      assert c.wire + Sentences(t, i, n) == heard.wire + Sentences(t, i + 1, n);
      assert heard.tasks[t := Task(Talking(n), false)] == c.tasks[t := Task(Talking(n), false)];
      es := SaysSentences(heard, t, i + 1, n, d, rest);
      es := OneMoreStep(announced, t, SayBytes, heard, es);
      es := OneMoreStep(c, t, SayChunk, announced, es);
    }
  }

  lemma OneMoreStep(c: Conn, t: nat, step: Step, d: Conn, rest: seq<Event>) returns (es: seq<Event>)
    requires t < |c.tasks| && CanStep(c.tasks[t], step) && Allowed(d, rest)
    requires d.tasks == c.tasks[t := c.tasks[t].(phase := Next(c.tasks[t], step))]
    requires d.wire == c.wire + Written(c.tasks[t], t, step) && d.current == c.current && d.loop == c.loop && d.held == c.held
    ensures Allowed(c, es) && Outcome(c, es) == Outcome(d, rest)
  {
    es := Preceded(c, Turn(t, step), d, rest);
  }

  /** The last turn on the connection stands at `phase`, and `frames` have been written since `c`. */
  function At(c: Conn, phase: Phase, frames: seq<Frame>): Conn {
    c.(tasks := c.tasks + [Task(phase, false)], current := Some(|c.tasks|), loop := Free, wire := c.wire + frames)
  }

  lemma NextAt(c: Conn, phase: Phase, frames: seq<Frame>, step: Step, rest: seq<Event>) returns (es: seq<Event>)
    requires CanStep(Task(phase, false), step)
    requires Allowed(At(c, Next(Task(phase, false), step), frames + Written(Task(phase, false), |c.tasks|, step)), rest)
    ensures Allowed(At(c, phase, frames), es)
    ensures Outcome(At(c, phase, frames), es)
         == Outcome(At(c, Next(Task(phase, false), step), frames + Written(Task(phase, false), |c.tasks|, step)), rest)
  {
    var before, w := At(c, phase, frames), Written(Task(phase, false), |c.tasks|, step);
    var after := At(c, Next(Task(phase, false), step), frames + w);
    assert before.tasks[|c.tasks|] == Task(phase, false);
    assert after.tasks == before.tasks[|c.tasks| := Task(after.tasks[|c.tasks|].phase, false)];
    assert after.wire == before.wire + w;
    es := OneMoreStep(before, |c.tasks|, step, after, rest);
  }

  /**
   Whenever the loop is free and no turn is live, a turn of any number of sentences can be taken to
   its end: the transcript, thinking on, each sentence's chunk and bytes, thinking off, and a
   `turn_complete` that counts them; and then the connection is idle again.
   */
  lemma WholeTurn(c: Conn, n: nat) returns (es: seq<Event>)
    requires c.loop.Free? && IsIdle(c)
    ensures var t := |c.tasks|;
      Allowed(c, es) && Outcome(c, es) == At(c, Done, [Transcript(t), Thinking(t, true)] + Sentences(t, 0, n)
                                                       + [Thinking(t, false), Complete(t, n)])
  {
    var t := |c.tasks|;
    var opening := [Transcript(t), Thinking(t, true)];
    var spoken := opening + Sentences(t, 0, n);
    es := Closing(c, n, spoken);
    es := Speaking(c, n, opening, es);
    assert [Transcript(t)] + [Thinking(t, true)] == opening;
    es := NextAt(c, Heard, [Transcript(t)], SayThinking, es);
    assert [] + [Transcript(t)] == [Transcript(t)];
    es := NextAt(c, Hearing, [], SayTranscript, es);
    es := Begins(c, es);
  }

  lemma Speaking(c: Conn, n: nat, frames: seq<Frame>, rest: seq<Event>) returns (es: seq<Event>)
    requires Allowed(At(c, Talking(n), frames + Sentences(|c.tasks|, 0, n)), rest)
    ensures Allowed(At(c, Talking(0), frames), es)
    ensures Outcome(At(c, Talking(0), frames), es) == Outcome(At(c, Talking(n), frames + Sentences(|c.tasks|, 0, n)), rest)
  {
    var t := |c.tasks|;
    var before, after := At(c, Talking(0), frames), At(c, Talking(n), frames + Sentences(t, 0, n));
    assert before.tasks[t] == Task(Talking(0), false);
    assert after.tasks == before.tasks[t := Task(Talking(n), false)];
    assert after.wire == before.wire + Sentences(t, 0, n);
    es := SaysSentences(before, t, 0, n, after, rest);
  }

  lemma Closing(c: Conn, n: nat, frames: seq<Frame>) returns (es: seq<Event>)
    ensures Allowed(At(c, Talking(n), frames), es)
    ensures Outcome(At(c, Talking(n), frames), es)
         == At(c, Done, frames + [Thinking(|c.tasks|, false), Complete(|c.tasks|, n)])
  {
    var t := |c.tasks|;
    var quiet := frames + [Thinking(t, false)];
    var whole := quiet + [Complete(t, n)];
    assert whole == frames + [Thinking(t, false), Complete(t, n)];
    assert whole + [] == whole && frames + [] == frames;
    es := NextAt(c, Remembering, whole, Finish, []);
    es := NextAt(c, Ended(n), quiet, SayComplete, es);
    es := NextAt(c, Ending(n), frames, SayQuiet, es);
    es := NextAt(c, Talking(n), frames, EndStream, es);
  }

  lemma Begins(c: Conn, rest: seq<Event>) returns (es: seq<Event>)
    requires c.loop.Free? && IsIdle(c) && Allowed(At(c, Hearing, []), rest)
    ensures Allowed(c, es) && Outcome(c, es) == Outcome(At(c, Hearing, []), rest)
  {
    var waiting, begun := c.(loop := Cancelling(Start)), At(c, Hearing, []);
    assert c.wire + [] == c.wire;
    es := Preceded(waiting, Resume, begun, rest);
    es := Preceded(c, Receive(Start), waiting, es);
  }

  // ---- Interrupts ----

  /** While the loop waits for the turn it interrupted, that turn has been cancelled. */
  ghost predicate Heeded(c: Conn) {
    c.loop.Cancelling? && !IsIdle(c) ==> c.current.value < |c.tasks| && c.tasks[c.current.value].cancelled
  }

  lemma StepKeepsHeeded(c: Conn, e: Event)
    requires Enabled(c, e) && OneAtATime(c) && Heeded(c)
    ensures Heeded(After(c, e))
  {
  }

  lemma {:induction false} RunKeepsHeeded(c: Conn, es: seq<Event>)
    requires Allowed(c, es) && OneAtATime(c) && Heeded(c)
    ensures OneAtATime(Outcome(c, es)) && Heeded(Outcome(c, es))
    decreases |es|
  {
    if es != [] {
      StepKeepsOne(c, es[0]);
      StepKeepsHeeded(c, es[0]);
      RunKeepsHeeded(After(c, es[0]), es[1..]);
    }
  }

  /**
   At any point of any run at which the loop waits for an interrupted turn, that turn can end at
   once, whatever it was doing: not another sentence is announced or heard, only `thinking` goes off
   if it had begun to talk, and the loop goes on.
   */
  lemma InterruptEnds(run: seq<Event>) returns (es: seq<Event>)
    requires Allowed(START, run) && Outcome(START, run).loop.Cancelling?
    ensures var c := Outcome(START, run);
      && Allowed(c, es) && Outcome(c, es).loop == (if c.loop.next.Close? then Stopped else Free)
      && |Outcome(c, es).tasks| == |c.tasks| + (if c.loop.next.Start? then 1 else 0)
      && (forall t :: 0 <= t < |c.tasks| ==> t < |Outcome(c, es).tasks| && Outcome(c, es).tasks[t].phase.Done?)
      && (Outcome(c, es).wire == c.wire
          || (c.current.Some? && Outcome(c, es).wire == c.wire + [Thinking(c.current.value, false)]))
      && ((c.current.Some? && c.current.value < |c.tasks|
           && (c.tasks[c.current.value].phase.Talking? || c.tasks[c.current.value].phase.Chunked?))
            ==> Outcome(c, es).wire == c.wire + [Thinking(c.current.value, false)])
  {
    RunKeepsHeeded(START, run);
    var c := Outcome(START, run);
    if IsIdle(c) {
      es := Resumes(c);
    } else {
      var t := c.current.value;
      es := Unwinds(c, t);
    }
  }

  /** The loop has gone on as it meant to. */
  predicate Goes(c: Conn, d: Conn)
    requires c.loop.Cancelling?
  {
    && d.loop == (if c.loop.next.Close? then Stopped else Free)
    && |d.tasks| == |c.tasks| + (if c.loop.next.Start? then 1 else 0)
  }

  lemma Resumes(c: Conn) returns (es: seq<Event>)
    requires c.loop.Cancelling? && IsIdle(c)
    ensures Allowed(c, es) && Goes(c, Outcome(c, es)) && Outcome(c, es).wire == c.wire
    ensures c.tasks <= Outcome(c, es).tasks
  {
    es := [Resume];
    assert es[1..] == [] && c.wire + [] == c.wire;
    assert Allowed(After(c, Resume), []) && Outcome(c, es) == Outcome(After(c, Resume), []);
  }

  /** The task at `t`, with nothing else changed but what it wrote. */
  function Moved(c: Conn, t: nat, phase: Phase, frames: seq<Frame>): Conn
    requires t < |c.tasks|
  {
    c.(tasks := c.tasks[t := c.tasks[t].(phase := phase)], wire := c.wire + frames)
  }

  lemma Ends(c: Conn, t: nat, frames: seq<Frame>) returns (es: seq<Event>)
    requires c.loop.Cancelling? && c.current == Some(t) && t < |c.tasks|
    ensures var d := Moved(c, t, Done, frames);
      Allowed(d, es) && Goes(c, Outcome(d, es)) && Outcome(d, es).wire == c.wire + frames && d.tasks <= Outcome(d, es).tasks
  {
    es := Resumes(Moved(c, t, Done, frames));
  }

  lemma Unwinds(c: Conn, t: nat) returns (es: seq<Event>)
    requires OneAtATime(c) && c.loop.Cancelling? && c.current == Some(t) && t < |c.tasks| && c.tasks[t].cancelled
    requires !c.tasks[t].phase.Done?
    ensures Allowed(c, es) && Goes(c, Outcome(c, es))
    ensures c.tasks[t := c.tasks[t].(phase := Done)] <= Outcome(c, es).tasks
    ensures Outcome(c, es).wire == c.wire || Outcome(c, es).wire == c.wire + [Thinking(t, false)]
    ensures c.tasks[t].phase.Talking? || c.tasks[t].phase.Chunked? ==> Outcome(c, es).wire == c.wire + [Thinking(t, false)]
  {
    var phase := c.tasks[t].phase;
    if phase.Unwinding? {
      es := Ends(c, t, []);
      es := OneMoreStep(c, t, Unwound, Moved(c, t, Done, []), es);
    } else if phase.Talking? || phase.Chunked? {
      es := Ends(c, t, [Thinking(t, false)]);
      es := FromUnwinding(c, t, es);
      es := OneMoreStep(c, t, Raise(false), Moved(c, t, Unwinding(true, false), []), es);
    } else {
      es := Ends(c, t, []);
      var d := Moved(c, t, Unwinding(false, false), []);
      assert d.tasks[t := d.tasks[t].(phase := Done)] == c.tasks[t := c.tasks[t].(phase := Done)];
      es := OneMoreStep(d, t, Unwound, Moved(c, t, Done, []), es);
      es := OneMoreStep(c, t, Raise(false), d, es);
    }
  }

  lemma FromUnwinding(c: Conn, t: nat, rest: seq<Event>) returns (es: seq<Event>)
    requires t < |c.tasks| && Allowed(Moved(c, t, Done, [Thinking(t, false)]), rest)
    ensures Allowed(Moved(c, t, Unwinding(true, false), []), es)
    ensures Outcome(Moved(c, t, Unwinding(true, false), []), es) == Outcome(Moved(c, t, Done, [Thinking(t, false)]), rest)
  {
    var a, b, d := Moved(c, t, Unwinding(true, false), []), Moved(c, t, Unwinding(false, false), [Thinking(t, false)]),
                   Moved(c, t, Done, [Thinking(t, false)]);
    assert c.wire + [] == c.wire && b.wire + [] == b.wire;
    assert b.tasks == a.tasks[t := a.tasks[t].(phase := Unwinding(false, false))];
    assert d.tasks == b.tasks[t := b.tasks[t].(phase := Done)];
    es := OneMoreStep(b, t, Unwound, d, rest);
    es := OneMoreStep(a, t, UnwindQuiet, b, es);
  }

  // ---- Errors and pushes ----

  /** A turn that goes wrong, wherever it is, can end by saying so, and says nothing else but that `thinking` is off. */
  lemma ErrorIsReported(c: Conn, t: nat) returns (es: seq<Event>)
    requires t < |c.tasks| && !c.tasks[t].phase.Done? && !c.tasks[t].phase.Unwinding?
    ensures Allowed(c, es)
    ensures Outcome(c, es) == Moved(c, t, Done, if c.tasks[t].phase.Talking? || c.tasks[t].phase.Chunked?
                                                then [Thinking(t, false), Failed(t)] else [Failed(t)])
  {
    var phase := c.tasks[t].phase;
    if phase.Talking? || phase.Chunked? {
      var a, b, d := Moved(c, t, Unwinding(true, true), []), Moved(c, t, Unwinding(false, true), [Thinking(t, false)]),
                     Moved(c, t, Done, [Thinking(t, false), Failed(t)]);
      assert d.wire == b.wire + [Failed(t)] && a.wire + [] == a.wire;
      assert b.tasks == a.tasks[t := a.tasks[t].(phase := Unwinding(false, true))];
      assert d.tasks == b.tasks[t := b.tasks[t].(phase := Done)];
      es := OneMoreStep(b, t, UnwindError, d, []);
      es := OneMoreStep(a, t, UnwindQuiet, b, es);
      es := OneMoreStep(c, t, Raise(true), a, es);
    } else {
      var a, d := Moved(c, t, Unwinding(false, true), []), Moved(c, t, Done, [Failed(t)]);
      assert a.wire + [Failed(t)] == d.wire;
      assert d.tasks == a.tasks[t := a.tasks[t].(phase := Done)];
      es := OneMoreStep(a, t, UnwindError, d, []);
      es := OneMoreStep(c, t, Raise(true), a, es);
    }
  }

  /** An idle connection whose loop still runs takes a push, whether or not others are written to first. */
  lemma PushLands(c: Conn, ahead: nat) returns (es: seq<Event>)
    requires !c.loop.Stopped? && IsIdle(c)
    ensures Allowed(c, es) && Outcome(c, es) == c.(wire := c.wire + [Push])
  {
    var landed := c.(wire := c.wire + [Push]);
    if ahead == 0 {
      es := Preceded(c, Deliver(0), landed, []);
    } else {
      var waiting := c.(held := c.held + 1);
      assert c.wire + [] == c.wire;
      es := Preceded(waiting, Release, landed, []);
      es := Preceded(c, Deliver(ahead), waiting, es);
    }
  }
}
