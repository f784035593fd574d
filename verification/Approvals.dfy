/**
 Every interleaving of the approval protocol of `app/confirm.py`: brokers of successive turns
 share one session's channel, while connections come and go, answers arrive late or never,
 and turns are cancelled.
 */
module Approvals {
  import opened Confirm
  import opened Wrappers

  /** A call waiting for its answer: whose it is, and whether the question has gone out. */
  datatype Ask = Ask(broker: nat, name: string, sent: bool)

  /** A call that reached the wrapped broker, and the request that approved it, if one was needed. */
  datatype Reach = Reach(broker: nat, name: string, approval: Option<nat>)

  datatype World = World(channel: Channel, gated: map<nat, Flags>, asking: map<nat, Ask>, log: seq<Reach>)

  const START := World(Channel(None, None, 0, map[]), map[], map[], [])

  datatype Event =
    | List(broker: nat, listing: seq<Schema>)
    | Invoke(broker: nat, name: string)
    | Sent(n: nat)
    | Settle(n: nat, ending: Ending)
    | Reply(n: nat, approved: bool)
    | Connect(sender: nat, token: Option<nat>)
    | Disconnect(mine: Option<nat>)

  function FlagsOf(w: World, broker: nat): Flags {
    if broker in w.gated then w.gated[broker] else map[]
  }

  predicate Enabled(w: World, e: Event) {
    match e
    case Sent(n) => n in w.asking && !w.asking[n].sent
    case Settle(n, ending) =>
      && n in w.asking && n in w.channel.slots
      && (ending.Woken? ==> w.asking[n].sent && w.channel.slots[n].answer.Some?)
      && (ending.SendFailed? ==> !w.asking[n].sent)
    case _ => true
  }

  function Settled(w: World, n: nat, ending: Ending): World
    requires n in w.asking && n in w.channel.slots
  {
    var ask := w.asking[n];
    World(Closed(w.channel, n), w.gated, w.asking - {n},
          if VerdictOf(w.channel.slots[n], ending) == Some(Approved)
          then w.log + [Reach(ask.broker, ask.name, Some(n))] else w.log)
  }

  function After(w: World, e: Event): World
    requires Enabled(w, e)
  {
    match e
    case List(b, listing) => w.(gated := w.gated[b := Listed(FlagsOf(w, b), listing)])
    case Invoke(b, name) =>
      if !IsGated(FlagsOf(w, b), name) then w.(log := w.log + [Reach(b, name, None)])
      else if w.channel.sender == None then w
      else w.(channel := Opened(w.channel), asking := w.asking[w.channel.counter + 1 := Ask(b, name, false)])
    case Sent(n) => w.(asking := w.asking[n := w.asking[n].(sent := true)])
    case Settle(n, ending) => Settled(w, n, ending)
    case Reply(n, approved) => w.(channel := Resolved(w.channel, n, approved))
    case Connect(sender, token) => w.(channel := w.channel.(sender := Some(sender), token := token))
    case Disconnect(mine) => w.(channel := Unbound(w.channel, mine))
  }

  /** A run: the events, and where the world stands before each of them and at the end. */
  ghost predicate Run(ws: seq<World>, es: seq<Event>) {
    && |ws| == |es| + 1 && ws[0] == START
    && forall k :: 0 <= k < |es| ==> Step(ws[k], es[k], ws[k + 1])
  }

  ghost predicate Step(w: World, e: Event, w': World) {
    Enabled(w, e) && w' == After(w, e)
  }

  // ---- What every run keeps ----

  ghost predicate Sound(w: World) {
    && w.asking.Keys == w.channel.slots.Keys
    && (forall n :: n in w.channel.slots ==> n <= w.channel.counter)
    && (forall n :: n in w.channel.slots && !w.channel.slots[n].listed ==> w.channel.slots[n].answer.Some?)
  }

  lemma {:induction false} RunIsSound(ws: seq<World>, es: seq<Event>, k: nat)
    requires Run(ws, es) && k <= |es|
    ensures Sound(ws[k])
    decreases k
  {
    if k > 0 {
      RunIsSound(ws, es, k - 1);
      assert Step(ws[k - 1], es[k - 1], ws[k]);
    }
  }

  lemma {:induction false} CounterGrows(ws: seq<World>, es: seq<Event>, a: nat, b: nat)
    requires Run(ws, es) && a <= b <= |es|
    ensures ws[a].channel.counter <= ws[b].channel.counter
    decreases b
  {
    if a < b {
      CounterGrows(ws, es, a, b - 1);
      assert Step(ws[b - 1], es[b - 1], ws[b]);
    }
  }

  /** An open request was opened by the gated call it carries, under an id no earlier call had. */
  lemma {:induction false} OpenedBy(ws: seq<World>, es: seq<Event>, k: nat, n: nat) returns (c: nat)
    requires Run(ws, es) && k <= |es| && n in ws[k].asking
    ensures c < k && es[c] == Invoke(ws[k].asking[n].broker, ws[k].asking[n].name)
    ensures ws[c].channel.counter + 1 == n && ws[c].channel.sender.Some?
    ensures IsGated(FlagsOf(ws[c], ws[k].asking[n].broker), ws[k].asking[n].name)
    decreases k
  {
    assert k > 0;
    assert Step(ws[k - 1], es[k - 1], ws[k]);
    if n in ws[k - 1].asking && !(es[k - 1].Invoke? && n == ws[k - 1].channel.counter + 1) {
      c := OpenedBy(ws, es, k - 1, n);
    } else {
      RunIsSound(ws, es, k - 1);
      c := k - 1;
    }
  }

  /** What a listing says of a tool holds for its broker until a later listing names the tool again, whatever happens meanwhile. */
  lemma {:induction false} ListingHolds(ws: seq<World>, es: seq<Event>, k: nat, j: nat, b: nat, listing: seq<Schema>, i: nat)
    requires Run(ws, es) && k < j <= |es| && es[k] == List(b, listing)
    requires i < |listing| && listing[i].Tool? && !Names(listing[i + 1..], listing[i].name)
    requires forall m :: k < m < j && es[m].List? && es[m].broker == b ==> !Names(es[m].listing, listing[i].name)
    ensures IsGated(FlagsOf(ws[j], b), listing[i].name) == listing[i].requiresConfirmation
    decreases j
  {
    assert Step(ws[j - 1], es[j - 1], ws[j]);
    if j == k + 1 {
      LastEntryDecides(FlagsOf(ws[k], b), listing, i);
    } else {
      ListingHolds(ws, es, k, j - 1, b, listing, i);
      if es[j - 1].List? && es[j - 1].broker == b {
        UnnamedIsUnchanged(FlagsOf(ws[j - 1], b), es[j - 1].listing, listing[i].name);
      }
    }
  }

  /** Right after a connection has bound, the handler of another with its own token cannot detach it, and its own can. */
  lemma OnlyItsOwnDetaches(ws: seq<World>, es: seq<Event>, k: nat, sender: nat, token: Option<nat>, mine: Option<nat>)
    requires Run(ws, es) && k + 1 < |es| && es[k] == Connect(sender, token) && es[k + 1] == Disconnect(mine)
    ensures ws[k + 1].channel.sender == Some(sender)
    ensures token.Some? && mine.Some? && mine != token ==> ws[k + 2] == ws[k + 1]
    ensures !(token.Some? && mine.Some? && mine != token) ==> ws[k + 2].channel.sender == None
  {
    assert Step(ws[k], es[k], ws[k + 1]) && Step(ws[k + 1], es[k + 1], ws[k + 2]);
  }

  /** A yes in an open request's future was put there by a yes to that very id, while it was waiting. */
  lemma {:induction false} AnsweredBy(ws: seq<World>, es: seq<Event>, k: nat, n: nat) returns (j: nat)
    requires Run(ws, es) && k <= |es| && n in ws[k].channel.slots && ws[k].channel.slots[n].answer == Some(true)
    ensures j < k && es[j] == Reply(n, true) && Awaits(ws[j].channel, n)
    decreases k
  {
    assert k > 0;
    assert Step(ws[k - 1], es[k - 1], ws[k]);
    RunIsSound(ws, es, k - 1);
    var before := ws[k - 1].channel;
    if n in before.slots && before.slots[n].answer == Some(true) {
      j := AnsweredBy(ws, es, k - 1, n);
    } else {
      j := k - 1;
    }
  }

  /** Once settled, an id is never open again. */
  lemma {:induction false} GoneForGood(ws: seq<World>, es: seq<Event>, a: nat, b: nat, n: nat)
    requires Run(ws, es) && a <= b <= |es|
    requires n !in ws[a].asking && n <= ws[a].channel.counter
    ensures n !in ws[b].asking && n <= ws[b].channel.counter
    decreases b
  {
    if a < b {
      GoneForGood(ws, es, a, b - 1, n);
      assert Step(ws[b - 1], es[b - 1], ws[b]);
    }
  }

  /** Each request settles at most once, however it ends. */
  lemma SettlesOnce(ws: seq<World>, es: seq<Event>, a: nat, b: nat)
    requires Run(ws, es) && a < |es| && b < |es| && es[a].Settle? && es[b].Settle? && es[a].n == es[b].n
    ensures a == b
  {
    if a != b {
      var first, second := if a < b then a else b, if a < b then b else a;
      assert Step(ws[first], es[first], ws[first + 1]);
      assert Step(ws[second], es[second], ws[second + 1]);
      RunIsSound(ws, es, first);
      GoneForGood(ws, es, first + 1, second, es[a].n);
      assert false;
    }
  }

  // ---- The gate ----

  /** The trace behind the `i`-th call that reached the wrapped broker. */
  ghost predicate Earned(ws: seq<World>, es: seq<Event>, k: nat, i: nat, c: nat, j: nat, m: nat)
    requires Run(ws, es) && k <= |es| && i < |ws[k].log|
  {
    var r := ws[k].log[i];
    && c < k && es[c] == Invoke(r.broker, r.name)
    && (r.approval == None ==> !IsGated(FlagsOf(ws[c], r.broker), r.name))
    && (r.approval.Some? ==>
          var n := r.approval.value;
          && c < j < m < k
          && IsGated(FlagsOf(ws[c], r.broker), r.name) && ws[c].channel.counter + 1 == n
          && es[j] == Reply(n, true) && Awaits(ws[j].channel, n)
          && es[m] == Settle(n, Woken) && |ws[m].log| == i)
  }

  lemma {:induction false} LogGrows(ws: seq<World>, es: seq<Event>, k: nat)
    requires Run(ws, es) && 0 < k <= |es|
    ensures var before, after := ws[k - 1].log, ws[k].log;
      && before <= after && |after| <= |before| + 1
  {
    assert Step(ws[k - 1], es[k - 1], ws[k]);
  }

  lemma ApprovedCallIsEarned(ws: seq<World>, es: seq<Event>, k: nat, n: nat) returns (c: nat, j: nat)
    requires Run(ws, es) && k < |es| && es[k] == Settle(n, Woken) && |ws[k + 1].log| > |ws[k].log|
    ensures Earned(ws, es, k + 1, |ws[k].log|, c, j, k)
  {
    assert Step(ws[k], es[k], ws[k + 1]);
    RunIsSound(ws, es, k);
    c := OpenedBy(ws, es, k, n);
    j := AnsweredBy(ws, es, k, n);
    RunIsSound(ws, es, j);
    if j <= c {
      CounterGrows(ws, es, j, c);
      assert false;
    }
  }

  /**
   A tool reaches the wrapped broker only if it was not gated when it was called, or after a yes
   to the id minted for that very call, given after the call and while it was waiting.
   */
  lemma {:induction false} GateHolds(ws: seq<World>, es: seq<Event>, k: nat, i: nat) returns (c: nat, j: nat, m: nat)
    requires Run(ws, es) && k <= |es| && i < |ws[k].log|
    ensures Earned(ws, es, k, i, c, j, m)
    decreases k
  {
    assert k > 0;
    assert Step(ws[k - 1], es[k - 1], ws[k]);
    LogGrows(ws, es, k);
    if i < |ws[k - 1].log| {
      c, j, m := GateHolds(ws, es, k - 1, i);
    } else if es[k - 1].Invoke? {
      c, j, m := k - 1, 0, 0;
    } else {
      m := k - 1;
      c, j := ApprovedCallIsEarned(ws, es, m, es[m].n);
    }
  }

  /** And it does reach it then: exactly an ungated call, and an approved one that is still waited for, go through. */
  lemma ReachesIff(ws: seq<World>, es: seq<Event>, k: nat)
    requires Run(ws, es) && k < |es|
    ensures match es[k]
      case Invoke(b, name) =>
        ws[k + 1].log == if IsGated(FlagsOf(ws[k], b), name) then ws[k].log else ws[k].log + [Reach(b, name, None)]
      case Settle(n, ending) =>
        n in ws[k].asking && n in ws[k].channel.slots &&
        ws[k + 1].log == if ending == Woken && ws[k].channel.slots[n].answer == Some(true)
                         then ws[k].log + [Reach(ws[k].asking[n].broker, ws[k].asking[n].name, Some(n))] else ws[k].log
      case _ => ws[k + 1].log == ws[k].log
  {
    assert Step(ws[k], es[k], ws[k + 1]);
  }

  /** An answer once given stands until its request settles, even through a disconnect. */
  lemma {:induction false} AnswerStands(ws: seq<World>, es: seq<Event>, a: nat, b: nat, n: nat, approved: bool)
    requires Run(ws, es) && a <= b <= |es| && n in ws[a].channel.slots && ws[a].channel.slots[n].answer == Some(approved)
    requires forall m :: a <= m < b && es[m].Settle? ==> es[m].n != n
    ensures n in ws[b].channel.slots && ws[b].channel.slots[n].answer == Some(approved)
    decreases b
  {
    if a < b {
      AnswerStands(ws, es, a, b - 1, n, approved);
      RunIsSound(ws, es, b - 1);
      assert Step(ws[b - 1], es[b - 1], ws[b]);
    }
  }

  /** So the first answer a request gets while it waits decides: on a yes the call goes through when it wakes, on a no it does not. */
  lemma AnswerDecides(ws: seq<World>, es: seq<Event>, j: nat, m: nat, n: nat, approved: bool)
    requires Run(ws, es) && j < m < |es| && es[j] == Reply(n, approved) && Awaits(ws[j].channel, n) && es[m] == Settle(n, Woken)
    ensures n in ws[m].asking
    ensures ws[m + 1].log == if approved then ws[m].log + [Reach(ws[m].asking[n].broker, ws[m].asking[n].name, Some(n))] else ws[m].log
  {
    assert Step(ws[j], es[j], ws[j + 1]);
    forall x | j + 1 <= x < m && es[x].Settle? ensures es[x].n != n {
      if es[x].n == n {
        SettlesOnce(ws, es, x, m);
        assert false;
      }
    }
    AnswerStands(ws, es, j + 1, m, n, approved);
    ReachesIff(ws, es, m);
  }

  /** One approval runs one call. */
  lemma ApprovalIsSpentOnce(ws: seq<World>, es: seq<Event>, k: nat, a: nat, b: nat)
    requires Run(ws, es) && k <= |es| && a < |ws[k].log| && b < |ws[k].log|
    requires ws[k].log[a].approval.Some? && ws[k].log[a].approval == ws[k].log[b].approval
    ensures a == b
  {
    var _, _, m := GateHolds(ws, es, k, a);
    var _, _, m' := GateHolds(ws, es, k, b);
    SettlesOnce(ws, es, m, m');
  }

  lemma {:induction false} StaysShut(ws: seq<World>, es: seq<Event>, a: nat, b: nat, n: nat)
    requires Run(ws, es) && a <= b <= |es| && n <= ws[a].channel.counter && !Awaits(ws[a].channel, n)
    ensures n <= ws[b].channel.counter && !Awaits(ws[b].channel, n)
    decreases b
  {
    if a < b {
      StaysShut(ws, es, a, b - 1, n);
      assert Step(ws[b - 1], es[b - 1], ws[b]);
    }
  }

  /**
   A disconnect settles every open question: no call asked about before it runs on a yes that
   comes after it, even over a new connection. A stale one changes nothing at all.
   */
  lemma DisconnectRefuses(ws: seq<World>, es: seq<Event>, u: nat, k: nat, i: nat) returns (j: nat)
    requires Run(ws, es) && u < k <= |es| && es[u].Disconnect? && i < |ws[k].log|
    requires ws[k].log[i].approval.Some? && ws[k].log[i].approval.value <= ws[u].channel.counter
    ensures IsStale(ws[u].channel, es[u].mine) ==> ws[u + 1] == ws[u]
    ensures j < k && es[j] == Reply(ws[k].log[i].approval.value, true)
    ensures !IsStale(ws[u].channel, es[u].mine) ==> j < u
  {
    assert Step(ws[u], es[u], ws[u + 1]);
    var c, m;
    c, j, m := GateHolds(ws, es, k, i);
    if !IsStale(ws[u].channel, es[u].mine) && j >= u {
      StaysShut(ws, es, u + 1, j, ws[k].log[i].approval.value);
      assert false;
    }
  }
}
