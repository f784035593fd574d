/**
 `Conversation` of `app/session.py`: the history replayed to the model each turn, trimmed
 in place on every append, and how one turn of `app/pipeline.py` writes to it.
 */
module Conversations {
  import opened Pipeline
  import opened SentenceSplitting
  import opened Text
  import opened Wrappers

  datatype Role = User | Assistant

  datatype Message = Message(role: Role, content: string)

  function FromUser(log: seq<Message>): seq<Message> {
    if log != [] && log[0].role != User then FromUser(log[1..]) else log
  }

  /** What `_trim` leaves of a history: all of it, unless it is over the cap. */
  function Trim(messages: seq<Message>, cap: int): seq<Message> {
    if |messages| <= cap then messages
    else
      var excess := |messages| - cap;
      FromUser(messages[if excess < |messages| then excess else |messages|..])
  }

  /** The history after the whole of `log` has been appended, message by message. */
  function History(log: seq<Message>, cap: int): seq<Message> {
    if log == [] then []
    else Trim(History(log[..|log| - 1], cap) + [log[|log| - 1]], cap)
  }

  function Kept(log: seq<Message>, maxMessages: Option<int>): seq<Message> {
    match maxMessages
    case None => log
    case Some(cap) => History(log, cap)
  }

  /** The last `cap` messages of the log, from the first user message among them on. */
  function Window(log: seq<Message>, cap: int): seq<Message> {
    FromUser(log[if cap <= 0 then |log| else if cap < |log| then |log| - cap else 0..])
  }

  class Conversation {
    var messages: seq<Message>
    const maxMessages: Option<int>
    ghost var log: seq<Message>

    /** The retained history is the trimmed history of everything ever said. */
    ghost predicate Valid()
      reads this
    {
      messages == Kept(log, maxMessages)
    }

    constructor (maxMessages: Option<int>)
      ensures Valid() && messages == log == [] && this.maxMessages == maxMessages
    {
      messages, log := [], [];
      this.maxMessages := maxMessages;
    }

    method AddUser(text: string)
      requires Valid()
      modifies this
      ensures Valid() && log == old(log) + [Message(User, text)]
    {
      Append(Message(User, text));
    }

    method AddAssistant(text: string)
      requires Valid()
      modifies this
      ensures Valid() && log == old(log) + [Message(Assistant, text)]
    {
      Append(Message(Assistant, text));
    }

    method Append(m: Message)
      requires Valid()
      modifies this
      ensures Valid() && log == old(log) + [m]
    {
      messages := messages + [m];
      log := log + [m];
      assert log[..|log| - 1] == old(log);
      TrimInPlace();
    }

    method TrimInPlace()
      modifies this`messages
      ensures messages == match maxMessages
                          case None => old(messages)
                          case Some(cap) => Trim(old(messages), cap)
    {
      if maxMessages == None || |messages| <= maxMessages.value {
        return;
      }
      var excess := |messages| - maxMessages.value;
      messages := messages[if excess < |messages| then excess else |messages|..];
      while messages != [] && messages[0].role != User
        invariant FromUser(messages) == Trim(old(messages), maxMessages.value)
        decreases |messages|
      {
        messages := messages[1..];
      }
    }
  }

  // ---- The window is the best history the cap allows ----

  lemma {:induction false} FromUserIsLongest(log: seq<Message>) returns (start: nat)
    ensures start <= |log| && FromUser(log) == log[start..]
    ensures start < |log| ==> log[start].role == User
    ensures forall k :: 0 <= k < start ==> log[k].role != User
  {
    if log != [] && log[0].role != User {
      start := FromUserIsLongest(log[1..]);
      start := start + 1;
    } else {
      start := 0;
    }
  }

  /** A suffix of the log that the cap and the Messages API both admit. */
  ghost predicate Replayable(log: seq<Message>, cap: int, start: nat) {
    && start <= |log|
    && (start < |log| ==> |log| - start <= cap && log[start].role == User)
  }

  lemma WindowIsLongest(log: seq<Message>, cap: int)
    ensures exists start: nat :: Replayable(log, cap, start) && Window(log, cap) == log[start..]
    ensures forall start: nat :: Replayable(log, cap, start) ==> |log[start..]| <= |Window(log, cap)|
  {
    var drop := if cap <= 0 then |log| else if cap < |log| then |log| - cap else 0;
    var start := FromUserIsLongest(log[drop..]);
    assert Window(log, cap) == log[drop + start..];
    assert Replayable(log, cap, drop + start);
    forall other: nat | Replayable(log, cap, other)
      ensures |log[other..]| <= |Window(log, cap)|
    {
      assert forall k :: drop <= k < drop + start ==> log[k] == log[drop..][k - drop];
    }
  }

  // ---- The trimmed history is that window, and exactly when it is ----

  lemma {:induction false} FromUserAppend(log: seq<Message>, m: Message)
    ensures FromUser(log + [m]) == if FromUser(log) != [] then FromUser(log) + [m] else FromUser([m])
  {
    if log == [] {
      assert log + [m] == [m];
    } else if log[0].role != User {
      assert (log + [m])[1..] == log[1..] + [m];
      FromUserAppend(log[1..], m);
    }
  }

  /** Dropping one message in front before or after looking for the first user one. */
  lemma FromUserTail(log: seq<Message>)
    ensures FromUser(log) == log || FromUser(log) == FromUser(log[1..])
    ensures |FromUser(log)| <= |log|
  {
    var start := FromUserIsLongest(log);
  }

  /** One append: trimming the window gives the next window unless it was empty and the reply has no question. */
  lemma TrimStep(log: seq<Message>, m: Message, cap: int)
    ensures Trim(Window(log, cap) + [m], cap) == Window(log + [m], cap)
            <==> (m.role == User || Window(log, cap) != [] || cap <= 0)
  {
    FromUserOne(m);
    if cap <= 0 {
      assert Window(log, cap) == [] && Window(log + [m], cap) == [];
    } else if |log| < cap {
      TrimRoomy(log, m, cap);
    } else {
      TrimFull(log, m, cap);
    }
  }

  lemma TrimRoomy(log: seq<Message>, m: Message, cap: int)
    requires |log| < cap
    ensures Trim(Window(log, cap) + [m], cap) == Window(log + [m], cap) <==> (m.role == User || Window(log, cap) != [])
  {
    FromUserOne(m);
    assert log[0..] == log && (log + [m])[0..] == log + [m];
    FromUserTail(log);
    FromUserAppend(log, m);
  }

  lemma TrimFull(log: seq<Message>, m: Message, cap: int)
    requires 0 < cap <= |log|
    ensures Trim(Window(log, cap) + [m], cap) == Window(log + [m], cap) <==> (m.role == User || Window(log, cap) != [])
  {
    var kept := log[|log| - cap..];
    assert (log + [m])[|log| + 1 - cap..] == kept[1..] + [m];
    if FromUser(kept) == kept {
      TrimWhole(kept, m);
    } else {
      TrimPart(kept, m);
    }
  }

  lemma TrimWhole(kept: seq<Message>, m: Message)
    requires kept != [] && FromUser(kept) == kept
    ensures Trim(kept + [m], |kept|) == FromUser(kept[1..] + [m])
  {
    assert (kept + [m])[1..] == kept[1..] + [m];
    TrimOne(kept + [m]);
  }

  lemma TrimOne(messages: seq<Message>)
    requires 1 < |messages|
    ensures Trim(messages, |messages| - 1) == FromUser(messages[1..])
  {
  }

  lemma TrimPart(kept: seq<Message>, m: Message)
    requires kept != [] && FromUser(kept) != kept
    ensures Trim(FromUser(kept) + [m], |kept|) == FromUser(kept[1..] + [m]) <==> (m.role == User || FromUser(kept) != [])
  {
    FromUserTail(kept);
    FromUserTail(kept[1..]);
    FromUserAppend(kept[1..], m);
    FromUserOne(m);
  }

  lemma FromUserOne(m: Message)
    ensures FromUser([m]) == if m.role == User then [m] else []
  {
    assert [m][1..] == [];
  }

  /** At every point of the log, the history is the window. */
  ghost predicate Tracked(log: seq<Message>, cap: int) {
    forall n :: 0 <= n <= |log| ==> History(log[..n], cap) == Window(log[..n], cap)
  }

  /** No assistant message was ever appended to an empty history. */
  ghost predicate NeverOrphaned(log: seq<Message>, cap: int) {
    forall n :: 0 <= n < |log| && log[n].role == Assistant ==> cap <= 0 || History(log[..n], cap) != []
  }

  /** The history tracks the window through a whole log just when no reply met an empty history. */
  lemma {:induction false} HistoryIsWindowIff(log: seq<Message>, cap: int)
    ensures Tracked(log, cap) <==> NeverOrphaned(log, cap)
  {
    if log == [] {
      assert log[..0] == [] && log[0..] == [];
    } else {
      var init, last := log[..|log| - 1], log[|log| - 1];
      assert log == init + [last];
      HistoryIsWindowIff(init, cap);
      TrackedAppend(init, last, cap);
      NeverOrphanedAppend(init, last, cap);
      TrimStep(init, last, cap);
    }
  }

  lemma TrackedAppend(init: seq<Message>, last: Message, cap: int)
    ensures Tracked(init + [last], cap)
            <==> Tracked(init, cap) && History(init + [last], cap) == Window(init + [last], cap)
    ensures History(init + [last], cap) == Trim(History(init, cap) + [last], cap)
    ensures Tracked(init, cap) ==> History(init, cap) == Window(init, cap)
  {
    var log := init + [last];
    assert log[..|log|] == log && log[..|init|] == init == init[..|init|];
    assert forall n :: 0 <= n <= |init| ==> log[..n] == init[..n];
  }

  lemma NeverOrphanedAppend(init: seq<Message>, last: Message, cap: int)
    ensures NeverOrphaned(init + [last], cap)
            <==> NeverOrphaned(init, cap) && (last.role == User || cap <= 0 || History(init, cap) != [])
  {
    var log := init + [last];
    assert log[..|init|] == init;
    assert forall n :: 0 <= n < |init| ==> log[..n] == init[..n] && log[n] == init[n];
  }

  // ---- The documented promise: what is kept opens with the user ----

  predicate Opens(messages: seq<Message>) { messages == [] || messages[0].role == User }

  ghost predicate AlwaysOpens(log: seq<Message>, maxMessages: Option<int>) {
    forall n :: 0 <= n <= |log| ==> OpensAt(log, n, maxMessages)
  }

  predicate OpensAt(log: seq<Message>, n: nat, maxMessages: Option<int>)
    requires n <= |log|
  {
    Opens(Kept(log[..n], maxMessages))
  }

  /** A question among the last `cap` messages before the `n`-th. */
  ghost predicate Recent(log: seq<Message>, n: nat, cap: int)
    requires n <= |log|
  {
    exists q :: 0 <= q < n && n - q <= cap && log[q].role == User
  }

  /** Every reply that is kept has a question among the last `cap` messages before it. */
  ghost predicate Questioned(log: seq<Message>, cap: int) {
    cap <= 0 || forall n :: 0 <= n < |log| && log[n].role == Assistant ==> Recent(log, n, cap)
  }

  lemma RecentIsWindow(log: seq<Message>, cap: int)
    requires 0 < cap
    ensures Recent(log, |log|, cap) <==> Window(log, cap) != []
  {
    var drop := if cap < |log| then |log| - cap else 0;
    assert forall q :: drop <= q < |log| ==> log[q] == log[drop..][q - drop];
    var start := FromUserIsLongest(log[drop..]);
    if start < |log[drop..]| {
      assert log[drop + start].role == User;
    }
  }

  lemma RecentOfPrefix(init: seq<Message>, last: Message, n: nat, cap: int)
    requires n <= |init|
    ensures Recent(init + [last], n, cap) <==> Recent(init, n, cap)
  {
    assert forall q :: 0 <= q < n ==> (init + [last])[q] == init[q];
  }

  lemma QuestionedAppend(init: seq<Message>, last: Message, cap: int)
    ensures Questioned(init + [last], cap)
       <==> Questioned(init, cap) && (last.role == User || cap <= 0 || Window(init, cap) != [])
  {
    var log := init + [last];
    assert log[|init|] == last;
    RecentOfPrefix(init, last, |init|, cap);
    if 0 < cap {
      RecentIsWindow(init, cap);
    }
    forall n | 0 <= n < |init| ensures log[n] == init[n] && (Recent(log, n, cap) <==> Recent(init, n, cap)) {
      RecentOfPrefix(init, last, n, cap);
    }
  }

  lemma OpensAppend(init: seq<Message>, last: Message, cap: int)
    ensures AlwaysOpens(init + [last], Some(cap)) <==> AlwaysOpens(init, Some(cap)) && Opens(History(init + [last], cap))
  {
    var log := init + [last];
    assert log[..|log|] == log;
    assert OpensAt(log, |log|, Some(cap)) == Opens(History(log, cap));
    forall n | 0 <= n <= |init| ensures OpensAt(log, n, Some(cap)) == OpensAt(init, n, Some(cap)) {
      assert log[..n] == init[..n];
    }
  }

  /** The window always opens with the user; a history that has left it does not. */
  lemma StepOpensIff(init: seq<Message>, last: Message, cap: int)
    requires History(init, cap) == Window(init, cap)
    ensures Opens(History(init + [last], cap)) <==> last.role == User || cap <= 0 || Window(init, cap) != []
  {
    TrimStep(init, last, cap);
    assert (init + [last])[..|init|] == init;
    WindowIsLongest(init + [last], cap);
    if last.role == Assistant && 0 < cap && Window(init, cap) == [] {
      assert [] + [last] == [last];
      assert History(init + [last], cap) == [last];
    }
  }

  /**
   The buffer opens with a user message at every point exactly when every reply had a question
   within the cap before it, which is exactly when it always is the longest such suffix.
   */
  lemma {:induction false} OpensIff(log: seq<Message>, cap: int)
    ensures AlwaysOpens(log, Some(cap)) <==> Questioned(log, cap)
    ensures Tracked(log, cap) <==> Questioned(log, cap)
  {
    if log == [] {
      assert log[..0] == [] && log[0..] == [];
    } else {
      var init, last := log[..|log| - 1], log[|log| - 1];
      assert log == init + [last];
      OpensIff(init, cap);
      TrackedAppend(init, last, cap);
      QuestionedAppend(init, last, cap);
      OpensAppend(init, last, cap);
      if Tracked(init, cap) {
        StepOpensIff(init, last, cap);
        TrimStep(init, last, cap);
      }
    }
  }

  /** More than `cap` replies in a row. */
  ghost predicate PilesUp(log: seq<Message>, cap: nat) {
    exists a: nat :: a + cap < |log| && RepliesFrom(log, a, cap)
  }

  ghost predicate RepliesFrom(log: seq<Message>, a: nat, cap: nat)
    requires a + cap < |log|
  {
    forall i :: a <= i <= a + cap ==> log[i].role == Assistant
  }

  /** On the log alone: a history opens with the user until more than `cap` replies stand in a row, or one comes first. */
  lemma PileUpIff(log: seq<Message>, cap: int)
    requires 0 < cap
    ensures Questioned(log, cap) <==> Opens(log) && !PilesUp(log, cap)
    ensures AlwaysOpens(log, Some(cap)) <==> Opens(log) && !PilesUp(log, cap)
  {
    OpensIff(log, cap);
    if PilesUp(log, cap) {
      var a: nat :| a + cap < |log| && RepliesFrom(log, a, cap);
      assert log[a + cap].role == Assistant && !Recent(log, a + cap, cap);
    } else if Opens(log) {
      forall n | 0 <= n < |log| && log[n].role == Assistant ensures Recent(log, n, cap) {
        if n <= cap {
          assert log[0].role == User;
        } else {
          assert !RepliesFrom(log, n - cap, cap);
          var q :| n - cap <= q <= n && log[q].role != Assistant;
          assert log[q].role == User;
        }
      }
    } else {
      assert log[0].role == Assistant && !Recent(log, 0, cap);
    }
  }

  /** A question and `n` replies. */
  function Monologue(question: string, reply: string, n: nat): (log: seq<Message>)
    ensures |log| == n + 1 && log[0] == Message(User, question)
    ensures forall i :: 0 < i <= n ==> log[i] == Message(Assistant, reply)
  {
    [Message(User, question)] + seq(n, i => Message(Assistant, reply))
  }

  /** `cap` replies to one question are harmless, and one more has the history open with the assistant. */
  lemma OneReplyTooMany(question: string, reply: string, cap: nat)
    requires 0 < cap
    ensures AlwaysOpens(Monologue(question, reply, cap), Some(cap))
    ensures !AlwaysOpens(Monologue(question, reply, cap + 1), Some(cap))
  {
    var enough, many := Monologue(question, reply, cap), Monologue(question, reply, cap + 1);
    PileUpIff(enough, cap);
    PileUpIff(many, cap);
    assert RepliesFrom(many, 1, cap);
    forall a: nat | a + cap < |enough| ensures !RepliesFrom(enough, a, cap) {
      assert a == 0 && enough[a].role == User;
    }
  }

  /** With no cap nothing is ever dropped, so only the first message counts. */
  lemma UncappedOpensIff(log: seq<Message>)
    ensures AlwaysOpens(log, None) <==> Opens(log)
  {
    assert log[..|log|] == log;
    assert OpensAt(log, |log|, None) == Opens(log);
    assert forall n :: 0 < n <= |log| ==> log[..n][0] == log[0];
  }

  /** Every assistant message directly follows a user message, as one turn at a time writes them. */
  ghost predicate TurnShaped(log: seq<Message>) {
    forall n :: 0 <= n < |log| && log[n].role == Assistant ==> 0 < n && log[n - 1].role == User
  }

  lemma {:induction false} TurnShapedHistory(log: seq<Message>, cap: int)
    requires TurnShaped(log)
    ensures History(log, cap) == Window(log, cap)
    ensures History(log, cap) != [] ==> History(log, cap)[0].role == User
  {
    if log == [] {
      assert log[0..] == [];
    } else {
      var init, last := log[..|log| - 1], log[|log| - 1];
      assert log == init + [last];
      TurnShapedHistory(init, cap);
      if last.role == Assistant && 0 < cap {
        WindowIsLongest(init, cap);
        assert Replayable(init, cap, |init| - 1);
      }
      TrimStep(init, last, cap);
      WindowIsLongest(log, cap);
    }
  }

  /** With room for two messages, the third reply in a row is the one the history opens with. */
  lemma ThreeRepliesBreakTheHistory()
    ensures var log := [Message(User, "q"), Message(Assistant, "a"), Message(Assistant, "b"), Message(Assistant, "c")];
            History(log, 2) == [Message(Assistant, "c")] && Window(log, 2) == []
  {
    var q, a, b, c := Message(User, "q"), Message(Assistant, "a"), Message(Assistant, "b"), Message(Assistant, "c");
    FromUserOne(b);
    FromUserOne(c);
    HistoryOfOne(q, 2);
    HistoryOneMore([q], a, 2);
    assert [q] + [a] == [q, a];
    HistoryOneMore([q, a], b, 2);
    assert [q, a] + [b] == [q, a, b] && [q, a, b][1..] == [a, b] && [a, b][1..] == [b];
    HistoryOneMore([q, a, b], c, 2);
    assert [q, a, b] + [c] == [q, a, b, c];
    assert [q, a, b, c][2..] == [b, c] && [b, c][1..] == [c];
  }

  lemma HistoryOneMore(log: seq<Message>, m: Message, cap: int)
    ensures History(log + [m], cap) == Trim(History(log, cap) + [m], cap)
  {
    assert (log + [m])[..|log|] == log;
  }

  lemma HistoryOfOne(m: Message, cap: int)
    requires 0 < cap
    ensures History([m], cap) == [m]
  {
    assert [] + [m] == [m] && [m][..0] == [];
  }

  // ---- One turn ----

  /** `_think_and_speak`: the question, the reply as far as it got, and what is remembered of it. */
  method ThinkAndSpeak(c: Conversation, transcript: string, tokens: seq<string>,
                       socket: Connection, wantDelta: bool)
      returns (spoken: nat, reply: string, live: bool, ghost captured: seq<string>, ghost unsaid: seq<string>, ghost held: string)
    requires c.Valid() && socket.sent == []
    modifies c, socket
    ensures c.Valid() && (old(TurnShaped(c.log)) ==> TurnShaped(c.log))
    ensures c.log == old(c.log) + [Message(User, transcript)] + if reply != "" then [Message(Assistant, reply)] else []
    ensures InStep(socket.sent) && spoken == |Heard(socket.sent)|
    ensures captured <= tokens && reply == Saved(captured) && Story(captured, Heard(socket.sent), unsaid, held)
    ensures Dense(Concat(Heard(socket.sent))) <= Dense(reply)
    ensures Dense(Concat(Heard(socket.sent))) == Dense(reply) <==> unsaid == [] && Strip(held) == ""
    ensures live ==> Heard(socket.sent) == SplitComplete(Concat(tokens)) && reply == Strip(Concat(tokens))
  {
    c.AddUser(transcript);
    var caught;
    caught, spoken, live, unsaid, held := SpeakStream(tokens, socket, wantDelta);
    captured := caught;
    reply := Saved(caught);
    HeardIsSaved(Heard(socket.sent), captured);
    SavedIsHeardIff(captured, Heard(socket.sent), unsaid, held);
    if old(TurnShaped(c.log)) {
      TurnAppended(old(c.log), transcript, reply);
    }
    if reply != "" {
      c.AddAssistant(reply);
    }
  }

  lemma TurnAppended(log: seq<Message>, question: string, reply: string)
    requires TurnShaped(log)
    ensures TurnShaped(log + [Message(User, question)])
    ensures TurnShaped(log + [Message(User, question)] + [Message(Assistant, reply)])
  {
  }
}
