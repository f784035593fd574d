/**
 The speaking half of `app/pipeline.py`: tokens go through the capture tee and the sentence
 splitter, and each sentence goes out as an `audio_chunk` frame followed by its bytes.

 Every `await` is a place where an interrupt can land. A connection carries the number of
 awaits that still complete; when it is used up, the next one raises and the turn unwinds.
 */
module Pipeline {
  import opened SentenceSplitting
  import opened SplitterLaws
  import opened Text

  datatype Frame =
    | Delta(text: string)
    | AudioChunk(index: nat, sentence: string)
    | Audio(of: string)

  /** The sentences announced by `audio_chunk` frames, in order. */
  function Announced(sent: seq<Frame>): seq<string> {
    if sent == [] then []
    else
      var last := sent[|sent| - 1];
      var before := Announced(sent[..|sent| - 1]);
      if last.AudioChunk? then before + [last.sentence] else before
  }

  /** The sentences whose audio went out, in order. */
  function Heard(sent: seq<Frame>): seq<string> {
    if sent == [] then []
    else
      var last := sent[|sent| - 1];
      var before := Heard(sent[..|sent| - 1]);
      if last.Audio? then before + [last.of] else before
  }

  function DeltaText(sent: seq<Frame>): string {
    if sent == [] then ""
    else
      var last := sent[|sent| - 1];
      var before := DeltaText(sent[..|sent| - 1]);
      if last.Delta? then before + last.text else before
  }

  /**
   Indices count up from zero, nothing else is sent before the last announcement has been heard
   out, and bytes directly follow the frame that announces them.
   */
  ghost predicate InStep(sent: seq<Frame>) {
    forall k :: 0 <= k < |sent| ==> FrameInStep(sent, k)
  }

  ghost predicate FrameInStep(sent: seq<Frame>, k: nat)
    requires k < |sent|
  {
    && (sent[k].AudioChunk? ==> sent[k].index == |Announced(sent[..k])|)
    && (!sent[k].Audio? ==> |Announced(sent[..k])| == |Heard(sent[..k])|)
    && (sent[k].Audio? ==> 0 < k && sent[k - 1].AudioChunk? && sent[k - 1].sentence == sent[k].of)
  }

  ghost predicate LastAnnounces(sent: seq<Frame>, sentence: string) {
    sent != [] && sent[|sent| - 1].AudioChunk? && sent[|sent| - 1].sentence == sentence
  }

  lemma SendCounts(sent: seq<Frame>, frame: Frame)
    ensures Announced(sent + [frame]) == if frame.AudioChunk? then Announced(sent) + [frame.sentence] else Announced(sent)
    ensures Heard(sent + [frame]) == if frame.Audio? then Heard(sent) + [frame.of] else Heard(sent)
    ensures DeltaText(sent + [frame]) == if frame.Delta? then DeltaText(sent) + frame.text else DeltaText(sent)
  {
    assert (sent + [frame])[..|sent|] == sent;
  }

  lemma SendInStep(sent: seq<Frame>, frame: Frame)
    requires InStep(sent)
    requires frame.AudioChunk? ==> frame.index == |Announced(sent)|
    requires !frame.Audio? ==> |Announced(sent)| == |Heard(sent)|
    requires frame.Audio? ==> LastAnnounces(sent, frame.of)
    ensures InStep(sent + [frame])
  {
    var longer := sent + [frame];
    forall k | 0 <= k < |longer| ensures FrameInStep(longer, k) {
      if k < |sent| {
        assert longer[..k] == sent[..k] && FrameInStep(sent, k);
      } else {
        assert longer[..k] == sent;
      }
    }
  }

  class Connection {
    var sent: seq<Frame>
    var awaits: nat

    constructor (awaits: nat)
      ensures sent == [] && this.awaits == awaits
    {
      this.sent, this.awaits := [], awaits;
    }

    /** One await with no effect on the wire: a token arriving, or speech being synthesised. */
    method Await() returns (live: bool)
      modifies this`awaits
      ensures live == (old(awaits) > 0)
      ensures awaits == if live then old(awaits) - 1 else 0
    {
      live := awaits > 0;
      if live { awaits := awaits - 1; }
    }

    method Send(frame: Frame) returns (live: bool)
      modifies this
      ensures live == (old(awaits) > 0)
      ensures awaits == if live then old(awaits) - 1 else 0
      ensures sent == if live then old(sent) + [frame] else old(sent)
    {
      live := Await();
      if live { sent := sent + [frame]; }
    }
  }

  /** What has been said so far: `done` is fully out, and at most one more is announced. */
  ghost predicate Saying(sent: seq<Frame>, done: seq<string>, next: seq<string>) {
    && InStep(sent)
    && Heard(sent) == done
    && (Announced(sent) == done || (next != [] && Announced(sent) == done + [next[0]]))
  }

  /** Everything announced has been heard out. */
  ghost predicate Even(sent: seq<Frame>) {
    InStep(sent) && Announced(sent) == Heard(sent)
  }

  method Emit(socket: Connection, index: nat, sentence: string) returns (live: bool)
    requires Even(socket.sent) && index == |Heard(socket.sent)|
    modifies socket
    ensures DeltaText(socket.sent) == old(DeltaText(socket.sent))
    ensures live ==> Even(socket.sent) && Heard(socket.sent) == old(Heard(socket.sent)) + [sentence]
    ensures !live ==> Saying(socket.sent, old(Heard(socket.sent)), [sentence]) && socket.awaits == 0
    ensures |socket.sent| + socket.awaits <= old(|socket.sent| + socket.awaits)
  {
    live := socket.Await();
    if !live { return; }
    SendCounts(socket.sent, AudioChunk(index, sentence));
    SendInStep(socket.sent, AudioChunk(index, sentence));
    live := socket.Send(AudioChunk(index, sentence));
    if !live { return; }
    SendCounts(socket.sent, Audio(sentence));
    SendInStep(socket.sent, Audio(sentence));
    live := socket.Send(Audio(sentence));
  }

  lemma TakeOneMore<T>(s: seq<T>, n: nat)
    requires n < |s|
    ensures s[..n + 1] == s[..n] + [s[n]]
  {
  }

  method EmitAll(socket: Connection, start: nat, sentences: seq<string>)
      returns (index: nat, live: bool, ghost unsaid: seq<string>)
    requires Even(socket.sent) && start == |Heard(socket.sent)|
    modifies socket
    ensures InStep(socket.sent) && DeltaText(socket.sent) == old(DeltaText(socket.sent))
    ensures index == |Heard(socket.sent)| && Heard(socket.sent) + unsaid == old(Heard(socket.sent)) + sentences
    ensures Heard(socket.sent) <= Announced(socket.sent) <= old(Heard(socket.sent)) + sentences
    ensures live ==> Even(socket.sent) && unsaid == []
    ensures !live ==> socket.awaits == 0
    ensures |socket.sent| + socket.awaits <= old(|socket.sent| + socket.awaits)
  {
    index, live := start, true;
    for n := 0 to |sentences|
      invariant Even(socket.sent) && DeltaText(socket.sent) == old(DeltaText(socket.sent))
      invariant Heard(socket.sent) == old(Heard(socket.sent)) + sentences[..n]
      invariant index == |Heard(socket.sent)| && live
      invariant |socket.sent| + socket.awaits <= old(|socket.sent| + socket.awaits)
    {
      ghost var said := Heard(socket.sent);
      live := Emit(socket, index, sentences[n]);
      if !live {
        unsaid := sentences[n..];
        LeftUnsaid(old(Heard(socket.sent)), sentences, n);
        return;
      }
      TakeOneMore(sentences, n);
      index := index + 1;
    }
    unsaid := [];
    assert sentences[..|sentences|] == sentences;
  }

  lemma LeftUnsaid(said: seq<string>, sentences: seq<string>, n: nat)
    requires n < |sentences|
    ensures said + sentences[..n] + sentences[n..] == said + sentences
    ensures said + sentences[..n] <= said + sentences[..n] + [sentences[n]] <= said + sentences
  {
    assert sentences == sentences[..n] + sentences[n..];
    assert said + sentences == said + sentences[..n] + [sentences[n]] + sentences[n + 1..];
  }

  /**
   Where a reply stands: what was captured splits into what was heard, the sentences cut off but
   not yet heard, and whatever the text still held will split into.
   */
  ghost predicate Story(captured: seq<string>, heard: seq<string>, unsaid: seq<string>, held: string) {
    SplitComplete(Concat(captured)) == heard + unsaid + SplitComplete(held)
  }

  /** Between two tokens: all that was cut off has been heard, and the splitter holds the rest. */
  ghost predicate CaughtUp(captured: seq<string>, sent: seq<Frame>, buf: string) {
    Even(sent) && Drain(Concat(captured)) == Drained(Heard(sent), buf)
  }

  /** What holds wherever a reply stops. */
  ghost predicate Told(captured: seq<string>, sent: seq<Frame>, unsaid: seq<string>, held: string) {
    && InStep(sent) && Story(captured, Heard(sent), unsaid, held)
    && Heard(sent) <= Announced(sent) <= SplitComplete(Concat(captured))
  }

  lemma HeldSoFar(captured: seq<string>, sent: seq<Frame>, buf: string)
    requires CaughtUp(captured, sent, buf)
    ensures Told(captured, sent, [], buf)
  {
    DrainSettles(Concat(captured));
    assert Heard(sent) + [] + SplitComplete(buf) == Heard(sent) + Spoken(buf);
  }

  lemma HeldWithToken(captured: seq<string>, token: string, sent: seq<Frame>, buf: string)
    requires CaughtUp(captured, sent, buf)
    ensures Told(captured + [token], sent, [], buf + token)
  {
    TokenArrives(captured, token, Heard(sent), buf);
    TokenSplits(Concat(captured + [token]), Heard(sent), buf + token);
  }

  lemma TokenSplits(whole: string, said: seq<string>, text: string)
    requires Drain(whole) == Drained(said + Drain(text).out, Drain(text).rest)
    ensures SplitComplete(whole) == said + [] + SplitComplete(text)
  {
    assert said + [] == said;
    Regroup(said, Drain(text).out, Spoken(Drain(text).rest));
  }

  /** One token on its way through the tee, the splitter and the sender. */
  method SpeakToken(token: string, socket: Connection, splitter: SentenceSplitter, start: nat, wantDelta: bool,
                    ghost captured: seq<string>)
      returns (got: bool, index: nat, live: bool, ghost unsaid: seq<string>, ghost held: string)
    requires CaughtUp(captured, socket.sent, splitter.buf) && splitter.Settled() && start == |Heard(socket.sent)|
    requires wantDelta ==> DeltaText(socket.sent) == Concat(captured)
    modifies socket, splitter
    ensures got == (old(socket.awaits) > 0) && index == |Heard(socket.sent)|
    ensures Told(if got then captured + [token] else captured, socket.sent, unsaid, held)
    ensures wantDelta ==> DeltaText(socket.sent) <= Concat(if got then captured + [token] else captured)
    ensures !wantDelta ==> DeltaText(socket.sent) == old(DeltaText(socket.sent))
    ensures live ==> got && CaughtUp(captured + [token], socket.sent, splitter.buf) && splitter.Settled()
    ensures live && wantDelta ==> DeltaText(socket.sent) == Concat(captured + [token])
    ensures !live ==> socket.awaits == 0
    ensures |socket.sent| + socket.awaits + (if got then 1 else 0) <= old(|socket.sent| + socket.awaits)
  {
    ghost var buf := splitter.buf;
    HeldSoFar(captured, socket.sent, buf);
    index, unsaid, held := start, [], buf;
    got := socket.Await();
    if !got {
      live := false;
      return;
    }
    HeldWithToken(captured, token, socket.sent, buf);
    TokenArrives(captured, token, Heard(socket.sent), buf);
    held := buf + token;
    live := SendDelta(token, socket, wantDelta);
    if !live { return; }
    index, live, unsaid := SpeakSentences(token, socket, splitter, start, captured);
    held := splitter.buf;
  }

  method SpeakSentences(token: string, socket: Connection, splitter: SentenceSplitter, start: nat, ghost captured: seq<string>)
      returns (index: nat, live: bool, ghost unsaid: seq<string>)
    requires CaughtUp(captured, socket.sent, splitter.buf) && splitter.Settled() && start == |Heard(socket.sent)|
    modifies socket, splitter
    ensures index == |Heard(socket.sent)| && DeltaText(socket.sent) == old(DeltaText(socket.sent)) && splitter.Settled()
    ensures Told(captured + [token], socket.sent, unsaid, splitter.buf)
    ensures live ==> CaughtUp(captured + [token], socket.sent, splitter.buf)
    ensures !live ==> socket.awaits == 0
    ensures |socket.sent| + socket.awaits <= old(|socket.sent| + socket.awaits)
  {
    ghost var said, text := Heard(socket.sent), splitter.buf + token;
    TokenArrives(captured, token, said, splitter.buf);
    var sentences := splitter.Feed(token);
    index, live, unsaid := EmitAll(socket, start, sentences);
    FedSoFar(said, sentences, Heard(socket.sent), unsaid, text);
    assert said + Drain(text).out + Spoken(Drain(text).rest) == said + SplitComplete(text);
  }

  method SendDelta(token: string, socket: Connection, wantDelta: bool) returns (live: bool)
    requires Even(socket.sent)
    modifies socket
    ensures Even(socket.sent) && Heard(socket.sent) == old(Heard(socket.sent)) && Announced(socket.sent) == old(Announced(socket.sent))
    ensures DeltaText(socket.sent) == if wantDelta && live then old(DeltaText(socket.sent)) + token else old(DeltaText(socket.sent))
    ensures !live ==> socket.awaits == 0
    ensures |socket.sent| + socket.awaits <= old(|socket.sent| + socket.awaits)
  {
    live := true;
    if wantDelta && token != "" {
      SendCounts(socket.sent, Delta(token));
      SendInStep(socket.sent, Delta(token));
      live := socket.Send(Delta(token));
    }
    assert old(DeltaText(socket.sent)) + "" == old(DeltaText(socket.sent));
  }

  lemma FedSoFar(said: seq<string>, sentences: seq<string>, heard: seq<string>, unsaid: seq<string>, text: string)
    requires sentences == Drain(text).out && heard + unsaid == said + sentences
    ensures heard + unsaid + SplitComplete(Drain(text).rest) == said + SplitComplete(text)
  {
    DrainSettles(text);
    Regroup(said, sentences, Spoken(Drain(text).rest));
  }

  /**
   `_speak_stream` over `_capture`: returns what was captured for the history and how many
   sentences were spoken, or stops where the interrupt landed. `unsaid` are the sentences then cut
   off but not heard, and `held` the text not yet cut.
   */
  method SpeakStream(tokens: seq<string>, socket: Connection, wantDelta: bool)
      returns (captured: seq<string>, index: nat, live: bool, ghost unsaid: seq<string>, ghost held: string)
    requires socket.sent == []
    modifies socket
    ensures InStep(socket.sent) && index == |Heard(socket.sent)|
    ensures captured <= tokens && (tokens != [] && old(socket.awaits) > 0 ==> captured != [])
    // What was heard and what was announced are openings of the reply, sentence by sentence.
    ensures Heard(socket.sent) <= Announced(socket.sent) <= SplitComplete(Concat(captured))
    ensures Story(captured, Heard(socket.sent), unsaid, held)
    ensures if wantDelta then DeltaText(socket.sent) <= Concat(captured) else DeltaText(socket.sent) == ""
    ensures live ==> captured == tokens && Heard(socket.sent) == SplitComplete(Concat(tokens)) && unsaid == [] && held == ""
    ensures live && wantDelta ==> DeltaText(socket.sent) == Concat(tokens)
    // Every token and every frame takes an await of its own; an interrupt comes only when they run out.
    ensures |captured| + |socket.sent| + socket.awaits + (if live then 1 else 0) <= old(socket.awaits)
    ensures !live ==> socket.awaits == 0
  {
    var splitter := new SentenceSplitter();
    captured, index, live, unsaid, held := SpeakTokens(tokens, socket, splitter, wantDelta);
    if !live { return; }
    assert splitter.buf == held && CaughtUp(tokens, socket.sent, held);
    // The end of the stream is waited for as well.
    live := socket.Await();
    if !live { return; }
    index, live, unsaid := SpeakRest(tokens, socket, splitter, index);
    held := "";
  }

  /** The sentences of the tokens as they arrive; the text after the last cut stays with the splitter. */
  method SpeakTokens(tokens: seq<string>, socket: Connection, splitter: SentenceSplitter, wantDelta: bool)
      returns (captured: seq<string>, index: nat, live: bool, ghost unsaid: seq<string>, ghost held: string)
    requires socket.sent == [] && splitter.buf == "" && splitter.Settled()
    modifies socket, splitter
    ensures Told(captured, socket.sent, unsaid, held) && index == |Heard(socket.sent)|
    ensures captured <= tokens && (tokens != [] && old(socket.awaits) > 0 ==> captured != [])
    ensures if wantDelta then DeltaText(socket.sent) <= Concat(captured) else DeltaText(socket.sent) == ""
    ensures live ==> captured == tokens && CaughtUp(tokens, socket.sent, splitter.buf) && unsaid == [] && held == splitter.buf
    ensures live && wantDelta ==> DeltaText(socket.sent) == Concat(tokens)
    ensures |captured| + |socket.sent| + socket.awaits <= old(socket.awaits) && (!live ==> socket.awaits == 0)
  {
    captured, index, live := [], 0, true;
    for n := 0 to |tokens|
      invariant captured == tokens[..n] && index == |Heard(socket.sent)| && live
      invariant CaughtUp(captured, socket.sent, splitter.buf) && splitter.Settled()
      invariant DeltaText(socket.sent) == if wantDelta then Concat(captured) else ""
      invariant n + |socket.sent| + socket.awaits <= old(socket.awaits) && (n == 0 ==> socket.awaits == old(socket.awaits))
    {
      TakeOneMore(tokens, n);
      var got;
      got, index, live, unsaid, held := SpeakToken(tokens[n], socket, splitter, index, wantDelta, captured);
      if got { captured := captured + [tokens[n]]; }
      if !live { return; }
    }
    assert tokens[..|tokens|] == tokens;
    HeldSoFar(tokens, socket.sent, splitter.buf);
    unsaid, held := [], splitter.buf;
  }

  /** What the splitter still holds when the stream has ended. */
  method SpeakRest(tokens: seq<string>, socket: Connection, splitter: SentenceSplitter, start: nat)
      returns (index: nat, live: bool, ghost unsaid: seq<string>)
    requires CaughtUp(tokens, socket.sent, splitter.buf) && start == |Heard(socket.sent)|
    modifies socket, splitter
    ensures Told(tokens, socket.sent, unsaid, "") && index == |Heard(socket.sent)|
    ensures DeltaText(socket.sent) == old(DeltaText(socket.sent))
    ensures live ==> Heard(socket.sent) == SplitComplete(Concat(tokens)) && unsaid == []
    ensures !live ==> socket.awaits == 0
    ensures |socket.sent| + socket.awaits <= old(|socket.sent| + socket.awaits)
  {
    ghost var said, buf := Heard(socket.sent), splitter.buf;
    var last := splitter.Flush();
    index, live, unsaid := EmitAll(socket, start, last);
    assert SplitComplete("") == [] && Heard(socket.sent) + unsaid + [] == said + last;
  }

  /** One more token: what the splitter then says continues what it has said so far. */
  lemma TokenArrives(captured: seq<string>, token: string, said: seq<string>, held: string)
    requires Drain(Concat(captured)) == Drained(said, held)
    ensures Concat(captured + [token]) == Concat(captured) + token
    ensures said <= SplitComplete(Concat(captured))
    ensures Drain(Concat(captured + [token])) == Drained(said + Drain(held + token).out, Drain(held + token).rest)
    ensures said <= said + Drain(held + token).out <= SplitComplete(Concat(captured + [token]))
  {
    ConcatAppend(captured, [token]);
    assert [token][1..] == [];
    assert Concat([token]) == token + Concat([]) == token;
    DrainSplits(Concat(captured), token);
  }

  // ---- What the history remembers against what was heard ----

  /** The text `_think_and_speak` saves as the assistant's turn, interrupted or not. */
  function Saved(captured: seq<string>): string { Strip(Concat(captured)) }

  /** Up to whitespace, what was heard is an opening of what is saved, and all of it just when every sentence was heard. */
  lemma HeardIsSaved(heard: seq<string>, captured: seq<string>)
    requires heard <= SplitComplete(Concat(captured))
    ensures Dense(Concat(heard)) <= Dense(Saved(captured))
    ensures Dense(Concat(heard)) == Dense(Saved(captured)) <==> heard == SplitComplete(Concat(captured))
  {
    var whole := SplitComplete(Concat(captured));
    var rest := whole[|heard|..];
    NothingIsLost(Concat(captured));
    DenseStrip(Concat(captured));
    assert whole == heard + rest;
    ConcatAppend(heard, rest);
    DenseConcat(Concat(heard), Concat(rest));
    SentencesAreSolid(Concat(captured));
    assert forall s :: s in rest ==> s in whole;
    SolidIsDense(rest);
  }

  lemma TrimmedIsDense(s: string)
    requires s != "" && Trimmed(s)
    ensures Dense(s) != ""
  {
    assert s == s[..1] + s[1..];
    DenseConcat(s[..1], s[1..]);
    assert Dense(s[..1]) == s[..1];
  }

  lemma SolidIsDense(sentences: seq<string>)
    requires forall s :: s in sentences ==> Solid(s)
    ensures Dense(Concat(sentences)) == "" <==> sentences == []
  {
    if sentences != [] {
      assert Solid(sentences[0]);
      DenseConcat(sentences[0], Concat(sentences[1..]));
      TrimmedIsDense(sentences[0]);
    }
  }

  lemma NothingToSay(text: string)
    ensures SplitComplete(text) == [] <==> Strip(text) == ""
  {
    SentencesAreSolid(text);
    SolidIsDense(SplitComplete(text));
    NothingIsLost(text);
    NothingDense(text);
  }

  lemma NothingDense(text: string)
    ensures Dense(text) == "" <==> Strip(text) == ""
  {
    DenseStrip(text);
    var _, _ := StripCutsBlanks(text);
    if Strip(text) != "" {
      TrimmedIsDense(Strip(text));
    }
  }

  lemma NothingAfter<T>(whole: seq<T>, a: seq<T>, b: seq<T>, c: seq<T>)
    requires whole == a + b + c
    ensures a <= whole && (a == whole <==> b == [] && c == [])
  {
    assert whole == a + (b + c);
    assert a == whole <==> |b| + |c| == 0;
  }

  /**
   When the turn unwinds, what is saved is what was heard exactly if no sentence was waiting to be
   spoken and the text still held is blank. Any other interrupt leaves more in the history than was heard.
   */
  lemma SavedIsHeardIff(captured: seq<string>, heard: seq<string>, unsaid: seq<string>, held: string)
    requires Story(captured, heard, unsaid, held)
    ensures Dense(Concat(heard)) == Dense(Saved(captured)) <==> unsaid == [] && Strip(held) == ""
  {
    NothingAfter(SplitComplete(Concat(captured)), heard, unsaid, SplitComplete(held));
    HeardIsSaved(heard, captured);
    NothingToSay(held);
  }

  /** A run that is interrupted once its first token is in: nothing is heard, and the token is saved. */
  method SavedMayExceedHeard(tokens: seq<string>, wantDelta: bool) returns (heard: seq<string>, saved: string, live: bool)
    requires tokens != []
    ensures !live && heard == [] && saved == Strip(tokens[0])
    ensures Dense(Concat(heard)) == Dense(saved) <==> Strip(tokens[0]) == ""
  {
    var socket := new Connection(1);
    var captured, index;
    ghost var unsaid, held;
    captured, index, live, unsaid, held := SpeakStream(tokens, socket, wantDelta);
    heard, saved := Heard(socket.sent), Saved(captured);
    assert captured == [tokens[0]];
    assert [tokens[0]][1..] == [] && tokens[0] + "" == tokens[0];
    SavedIsHeardIff(captured, heard, unsaid, held);
    if live {
      assert false;
    }
    NothingToSay(tokens[0]);
    HeardIsSaved(heard, captured);
  }
}
