/**
 What `_speak_stream` sends (`app/pipeline.py`), seen as the steps of a turn task on the
 connection's wire (`app/main.py`).
 */
module SpokenTurns {
  import P = Pipeline
  import T = Turns

  function StepOf(f: P.Frame): T.Step {
    match f
    case Delta(_) => T.SayAside
    case AudioChunk(_, _) => T.SayChunk
    case Audio(_) => T.SayBytes
  }

  function Steps(sent: seq<P.Frame>): seq<T.Step> {
    if sent == [] then [] else Steps(sent[..|sent| - 1]) + [StepOf(sent[|sent| - 1])]
  }

  /** The same frames as turn `t` writes them: text left out, and bytes numbered by the sentences heard before. */
  function OnWire(sent: seq<P.Frame>, t: nat): seq<T.Frame> {
    if sent == [] then []
    else
      var init, last := sent[..|sent| - 1], sent[|sent| - 1];
      OnWire(init, t) + match last
                        case Delta(_) => [T.Aside(t)]
                        case AudioChunk(index, _) => [T.Chunk(t, index)]
                        case Audio(_) => [T.Bytes(t, |P.Heard(init)|)]
  }

  /** Where the task stands, and what it has written, after taking the steps. */
  ghost predicate Takes(task: T.Task, t: nat, steps: seq<T.Step>, after: T.Phase, written: seq<T.Frame>)
    decreases |steps|
  {
    if steps == [] then after == task.phase && written == []
    else
      && T.CanStep(task, steps[0])
      && T.Written(task, t, steps[0]) <= written
      && Takes(task.(phase := T.Next(task, steps[0])), t, steps[1..], after, written[|T.Written(task, t, steps[0])|..])
  }

  lemma {:induction false} TakesOneMore(task: T.Task, t: nat, steps: seq<T.Step>, mid: T.Phase, written: seq<T.Frame>, step: T.Step)
    requires Takes(task, t, steps, mid, written) && T.CanStep(task.(phase := mid), step)
    ensures Takes(task, t, steps + [step], T.Next(task.(phase := mid), step), written + T.Written(task.(phase := mid), t, step))
    decreases |steps|
  {
    var more := steps + [step];
    if steps == [] {
      assert more[1..] == [];
      assert written + T.Written(task, t, step) == T.Written(task, t, step);
    } else {
      var first, next := T.Written(task, t, steps[0]), task.(phase := T.Next(task, steps[0]));
      TakesOneMore(next, t, steps[1..], mid, written[|first|..], step);
      assert more[1..] == steps[1..] + [step];
      var last := T.Written(task.(phase := mid), t, step);
      assert (written + last)[|first|..] == written[|first|..] + last;
    }
  }

  /** Between sentences, or with the bytes of the next one still to be sent. */
  function PhaseOf(sent: seq<P.Frame>): T.Phase {
    if |P.Announced(sent)| == |P.Heard(sent)| then T.Talking(|P.Heard(sent)|) else T.Chunked(|P.Heard(sent)|)
  }

  lemma InStepPrefix(sent: seq<P.Frame>)
    requires sent != [] && P.InStep(sent)
    ensures P.InStep(sent[..|sent| - 1]) && P.FrameInStep(sent, |sent| - 1)
  {
    var n := |sent| - 1;
    forall k | 0 <= k < n ensures P.FrameInStep(sent[..n], k) {
      assert P.FrameInStep(sent, k) && sent[..n][..k] == sent[..k];
    }
  }

  /** At most one sentence is announced and not yet heard out, and then it was announced last. */
  lemma {:induction false} Paired(sent: seq<P.Frame>)
    requires P.InStep(sent)
    ensures |P.Heard(sent)| <= |P.Announced(sent)| <= |P.Heard(sent)| + 1
    ensures sent != [] ==> (sent[|sent| - 1].AudioChunk? <==> |P.Announced(sent)| > |P.Heard(sent)|)
  {
    if sent != [] {
      InStepPrefix(sent);
      Paired(sent[..|sent| - 1]);
    }
  }

  /** One more frame is one step of the task. */
  lemma FrameIsStep(init: seq<P.Frame>, last: P.Frame, t: nat, cancelled: bool)
    requires P.InStep(init + [last])
    ensures var task := T.Task(PhaseOf(init), cancelled);
      && T.CanStep(task, StepOf(last)) && T.Next(task, StepOf(last)) == PhaseOf(init + [last])
      && OnWire(init + [last], t) == OnWire(init, t) + T.Written(task, t, StepOf(last))
  {
    var sent := init + [last];
    assert sent[..|sent| - 1] == init;
    InStepPrefix(sent);
    Paired(init);
    Paired(sent);
    P.SendCounts(init, last);
  }

  /**
   Whatever `P.SpeakStream` has sent, wherever it stopped, a turn task that has begun to talk can
   write in the same order, and then stands where the stream does: so what is proved of the wire
   for all turns holds of the frames the stream sends.
   */
  lemma {:induction false} SpeakingIsATurn(sent: seq<P.Frame>, t: nat, cancelled: bool)
    requires P.InStep(sent)
    ensures Takes(T.Task(T.Talking(0), cancelled), t, Steps(sent), PhaseOf(sent), OnWire(sent, t))
  {
    if sent != [] {
      var init, last := sent[..|sent| - 1], sent[|sent| - 1];
      assert init + [last] == sent;
      InStepPrefix(sent);
      SpeakingIsATurn(init, t, cancelled);
      FrameIsStep(init, last, t, cancelled);
      TakesOneMore(T.Task(T.Talking(0), cancelled), t, Steps(init), PhaseOf(init), OnWire(init, t), StepOf(last));
    }
  }
}
