/**
 Asking permission (`app/confirm.py`): the per-session approval channel, cut at its `await`
 points into the steps that run without interruption, and the broker that gates tools on it.
 */
module Confirm {
  import opened Collections
  import opened Wrappers

  // ---- The approval channel ----

  /** A request's future, and whether it is still in the channel's table. */
  datatype Slot = Slot(listed: bool, answer: Option<bool>)

  /** `slots` holds every request not yet settled, under the number in its id `k<n>`. */
  datatype Channel = Channel(sender: Option<nat>, token: Option<nat>, counter: nat, slots: map<nat, Slot>)

  predicate IsStale(c: Channel, token: Option<nat>) {
    token.Some? && c.token.Some? && c.token != token
  }

  function RefusedSlot(slot: Slot): Slot {
    if slot.listed then Slot(false, if slot.answer == None then Some(false) else slot.answer) else slot
  }

  function Unbound(c: Channel, token: Option<nat>): Channel {
    if IsStale(c, token) then c
    else Channel(None, None, c.counter, map n | n in c.slots :: RefusedSlot(c.slots[n]))
  }

  function Opened(c: Channel): Channel {
    if c.sender == None then c
    else c.(counter := c.counter + 1, slots := c.slots[c.counter + 1 := Slot(true, None)])
  }

  /** An answer counts only while its request is listed and still open. */
  predicate Awaits(c: Channel, n: nat) {
    n in c.slots && c.slots[n] == Slot(true, None)
  }

  function Resolved(c: Channel, n: nat, approved: bool): Channel {
    if Awaits(c, n) then c.(slots := c.slots[n := Slot(true, Some(approved))]) else c
  }

  datatype Verdict = Approved | Denied | TimedOut | NoOne

  /** How a request's wait ends; cancellation raises instead of giving a verdict. */
  datatype Ending = Woken | SendFailed | Elapsed | Cancelled

  function VerdictOf(slot: Slot, ending: Ending): Option<Verdict> {
    match ending
    case Woken => if slot.answer == Some(true) then Some(Approved) else Some(Denied)
    case SendFailed => Some(NoOne)
    case Elapsed => Some(TimedOut)
    case Cancelled => None
  }

  function Closed(c: Channel, n: nat): Channel {
    c.(slots := c.slots - {n})
  }

  class Confirmations {
    var sender: Option<nat>
    var token: Option<nat>
    var counter: nat
    var slots: map<nat, Slot>

    ghost function State(): Channel
      reads this
    {
      Channel(sender, token, counter, slots)
    }

    constructor ()
      ensures State() == Channel(None, None, 0, map[])
    {
      sender, token, counter, slots := None, None, 0, map[];
    }

    method Bind(newSender: nat, newToken: Option<nat>)
      modifies this
      ensures State() == old(State()).(sender := Some(newSender), token := newToken)
    {
      sender, token := Some(newSender), newToken;
    }

    /** A newer connection's channel is left alone; otherwise everyone still waiting is told no. */
    method Unbind(mine: Option<nat>)
      modifies this
      ensures State() == Unbound(old(State()), mine)
      ensures (mine.Some? && old(token).Some? && mine != old(token)) ==> State() == old(State())
      ensures !(mine.Some? && old(token).Some? && mine != old(token)) ==>
        && sender == None && token == None && counter == old(counter) && slots.Keys == old(slots).Keys
        && forall n :: n in slots ==>
             && !slots[n].listed
             && slots[n].answer == if old(slots)[n].listed && old(slots)[n].answer == None then Some(false) else old(slots)[n].answer
    {
      if mine != None && token != None && token != mine {
        return;
      }
      sender, token := None, None;
      var todo := slots.Keys;
      while todo != {}
        invariant sender == None && token == None && counter == old(counter)
        invariant todo <= old(slots).Keys && slots == RefusedBut(old(slots), todo)
        decreases |todo|
      {
        var n := Pick(todo);
        RefuseOne(old(slots), todo, n);
        if slots[n].listed {
          var answer := slots[n].answer;
          slots := slots[n := Slot(false, if answer == None then Some(false) else answer)];
        }
        todo := todo - {n};
      }
    }

    /** `request` up to its first `await`: mint the next id, or give up if nobody is there. */
    method Open() returns (n: Option<nat>)
      modifies this
      ensures State() == Opened(old(State()))
      ensures n.Some? ==> State() == old(State()).(counter := n.value, slots := old(slots)[n.value := Slot(true, None)])
      ensures n == if old(sender) == None then None else Some(old(counter) + 1)
    {
      if sender == None {
        return None;
      }
      counter := counter + 1;
      slots := slots[counter := Slot(true, None)];
      return Some(counter);
    }

    /** `resolve`: unknown and late ids are dropped. */
    method Resolve(n: Option<nat>, approved: bool)
      modifies this
      ensures State() == if n == None then old(State()) else Resolved(old(State()), n.value, approved)
      ensures slots == if n.Some? && n.value in old(slots) && old(slots)[n.value] == Slot(true, None)
                       then old(slots)[n.value := Slot(true, Some(approved))] else old(slots)
      ensures sender == old(sender) && token == old(token) && counter == old(counter)
    {
      if n == None {
        return;
      }
      if n.value !in slots || !slots[n.value].listed || slots[n.value].answer != None {
        return;
      }
      slots := slots[n.value := Slot(true, Some(approved))];
    }

    /** `request` from the end of its wait: the verdict, and the id is gone whatever happened. */
    method Close(n: nat, ending: Ending) returns (v: Option<Verdict>)
      requires n in slots && (ending == Woken ==> slots[n].answer.Some?)
      modifies this
      ensures State() == Closed(old(State()), n)
      ensures v == VerdictOf(old(slots)[n], ending) && slots == old(slots) - {n}
      ensures v == Some(Approved) <==> ending.Woken? && old(slots)[n].answer == Some(true)
      ensures v == Some(Denied) <==> ending.Woken? && old(slots)[n].answer != Some(true)
      ensures (v == Some(NoOne) <==> ending.SendFailed?) && (v == Some(TimedOut) <==> ending.Elapsed?)
    {
      v := match ending
        case Woken => Some(if slots[n].answer == Some(true) then Approved else Denied)
        case SendFailed => Some(NoOne)
        case Elapsed => Some(TimedOut)
        case Cancelled => None;
      slots := slots - {n};
    }
  }

  /** The table with everyone refused but those still to be visited. */
  ghost function RefusedBut(slots: map<nat, Slot>, todo: set<nat>): map<nat, Slot> {
    map n | n in slots :: if n in todo then slots[n] else RefusedSlot(slots[n])
  }

  lemma RefuseOne(slots: map<nat, Slot>, todo: set<nat>, n: nat)
    requires n in todo && n in slots
    ensures RefusedBut(slots, todo)[n := RefusedSlot(slots[n])] == RefusedBut(slots, todo - {n})
    ensures n in RefusedBut(slots, todo) && RefusedBut(slots, todo)[n] == slots[n]
    ensures !slots[n].listed ==> RefusedBut(slots, todo) == RefusedBut(slots, todo - {n})
  {
  }

  // ---- The gate ----

  /** One entry of a tool listing; `Malformed` is one whose name or flags cannot be read. */
  datatype Schema = Malformed | Tool(name: string, requiresConfirmation: bool)

  type Flags = map<string, bool>

  function Listed(gated: Flags, listing: seq<Schema>): Flags {
    if listing == [] then gated
    else
      var n := |listing| - 1;
      var before := Listed(gated, listing[..n]);
      if listing[n].Tool? then before[listing[n].name := listing[n].requiresConfirmation] else before
  }

  predicate IsGated(gated: Flags, name: string) { name in gated && gated[name] }

  predicate Names(listing: seq<Schema>, name: string) {
    exists i :: 0 <= i < |listing| && listing[i].Tool? && listing[i].name == name
  }

  lemma {:induction false} UnnamedIsUnchanged(gated: Flags, listing: seq<Schema>, name: string)
    requires !Names(listing, name)
    ensures IsGated(Listed(gated, listing), name) == IsGated(gated, name)
  {
    if listing != [] {
      var n := |listing| - 1;
      assert listing == listing[..n] + [listing[n]];
      UnnamedIsUnchanged(gated, listing[..n], name);
    }
  }

  /** The last readable entry for a name decides, and one that cannot be read changes nothing. */
  lemma {:induction false} LastEntryDecides(gated: Flags, listing: seq<Schema>, i: nat)
    requires i < |listing| && listing[i].Tool? && !Names(listing[i + 1..], listing[i].name)
    ensures IsGated(Listed(gated, listing), listing[i].name) == listing[i].requiresConfirmation
  {
    var n := |listing| - 1;
    if i < n {
      assert listing[i + 1..] == listing[..n][i + 1..] + [listing[n]];
      assert listing[i + 1..][n - i - 1] == listing[n];
      LastEntryDecides(gated, listing[..n], i);
    }
  }

  /** A tool is gated only by a listing that says so: until one names it, it is not. */
  lemma {:induction false} GatedIff(listing: seq<Schema>, name: string)
    ensures IsGated(Listed(map[], listing), name) <==>
      exists i :: 0 <= i < |listing| && listing[i] == Tool(name, true) && !Names(listing[i + 1..], name)
  {
    if i :| 0 <= i < |listing| && listing[i].Tool? && listing[i].name == name && !Names(listing[i + 1..], name) {
      LastEntryDecides(map[], listing, i);
      forall j | 0 <= j < |listing| && listing[j] == Tool(name, true) && !Names(listing[j + 1..], name) ensures j == i {
        if i < j {
          LaterIsNamed(listing, i, j);
        } else if j < i {
          LaterIsNamed(listing, j, i);
        }
      }
    } else {
      NoLastEntry(listing, name);
      UnnamedIsUnchanged(map[], listing, name);
    }
  }

  lemma LaterIsNamed(listing: seq<Schema>, i: nat, j: nat)
    requires i < j < |listing| && listing[j].Tool?
    ensures Names(listing[i + 1..], listing[j].name)
  {
    assert listing[i + 1..][j - i - 1] == listing[j];
  }

  /** A name that occurs has a last occurrence. */
  lemma {:induction false} NoLastEntry(listing: seq<Schema>, name: string)
    requires forall i :: 0 <= i < |listing| && listing[i].Tool? && listing[i].name == name ==> Names(listing[i + 1..], name)
    ensures !Names(listing, name)
  {
    if listing != [] {
      var n := |listing| - 1;
      assert listing[n + 1..] == [];
      assert !(listing[n].Tool? && listing[n].name == name);
      var init := listing[..n];
      forall i | 0 <= i < |init| && init[i].Tool? && init[i].name == name ensures Names(init[i + 1..], name) {
        assert init[i] == listing[i];
        var j :| 0 <= j < |listing[i + 1..]| && listing[i + 1..][j].Tool? && listing[i + 1..][j].name == name;
        assert listing[i + 1..][j] == listing[i + 1 + j];
        assert init[i + 1..][j] == listing[i + 1 + j];
      }
      NoLastEntry(init, name);
      assert listing == init + [listing[n]];
      assert forall i :: 0 <= i < n ==> init[i] == listing[i];
    }
  }

  datatype Value = Flag(b: bool) | Number(n: int) | Word(s: string)

  type Kwargs = map<string, Value>

  /** A bind either takes, or raises and leaves what it leaves. */
  datatype BindFate = Binds | Raises(left: Kwargs)

  function Binding(kwargs: Kwargs, fate: BindFate): Kwargs {
    if fate.Binds? then kwargs else fate.left
  }

  datatype Call = Call(name: string, args: string, under: Kwargs)

  datatype Reply = Answer(text: string) | Failure

  /** The wrapped broker: what it is bound with, and every call that reached it. */
  class Inner {
    var bound: Kwargs
    var calls: seq<Call>
    const bindable: bool

    constructor (bindable: bool)
      ensures calls == [] && bound == map[] && this.bindable == bindable
    {
      bound, calls, this.bindable := map[], [], bindable;
    }

    method Bind(kwargs: Kwargs, fate: BindFate) returns (ok: bool)
      modifies this`bound
      ensures ok == fate.Binds? && bound == Binding(kwargs, fate)
    {
      ok, bound := fate.Binds?, Binding(kwargs, fate);
    }

    method CallTool(name: string, args: string, reply: Reply) returns (r: Reply)
      modifies this`calls
      ensures r == reply && calls == old(calls) + [Call(name, args, bound)]
    {
      calls := calls + [Call(name, args, bound)];
      r := reply;
    }
  }

  function Confirming(bound: Kwargs): Kwargs { bound["confirmed" := Flag(true)] }

  /** The same arguments, but for the flag, which is set. */
  ghost predicate Keeps(bound: Kwargs, under: Kwargs) {
    && "confirmed" in under && under["confirmed"] == Flag(true)
    && under - {"confirmed"} == bound - {"confirmed"}
  }

  ghost predicate Leaves(fate: BindFate, bound: Kwargs) { fate.Raises? ==> fate.left != bound }

  datatype Outcome = Ran(reply: Reply) | Refused(verdict: Verdict)

  class ConfirmBroker {
    const inner: Inner
    var gated: Flags
    var bound: Kwargs

    constructor (inner: Inner)
      ensures this.inner == inner && gated == map[] && bound == map[]
    {
      this.inner, gated, bound := inner, map[], map[];
    }

    method Bind(kwargs: Kwargs, fate: BindFate) returns (ok: bool)
      modifies this`bound, inner`bound
      ensures bound == kwargs && ok == (inner.bindable ==> fate.Binds?)
      ensures inner.bound == if inner.bindable then Binding(kwargs, fate) else old(inner.bound)
    {
      bound := kwargs;
      ok := true;
      if inner.bindable {
        ok := inner.Bind(kwargs, fate);
      }
    }

    method ListTools(listing: seq<Schema>)
      modifies this`gated
      ensures gated == Listed(old(gated), listing)
    {
      for i := 0 to |listing|
        invariant gated == Listed(old(gated), listing[..i])
      {
        assert listing[..i + 1][..i] == listing[..i];
        if listing[i].Tool? {
          gated := gated[listing[i].name := listing[i].requiresConfirmation];
        }
      }
      assert listing[..|listing|] == listing;
    }

    /** The call goes through only if nobody had to ask or the answer was yes. */
    method CallTool(name: string, args: string, verdict: Verdict, confirm: BindFate, restore: BindFate, reply: Reply)
        returns (r: Outcome)
      modifies inner
      ensures r == if IsGated(gated, name) && verdict != Approved then Refused(verdict) else Ran(reply)
      ensures r.Refused? ==> inner.calls == old(inner.calls) && inner.bound == old(inner.bound)
      ensures r.Ran? ==> |inner.calls| == |old(inner.calls)| + 1 && inner.calls[..|old(inner.calls)|] == old(inner.calls)
      // What the call ran under: an ungated one, the run's own bind; an approved one, that bind plus the flag.
      ensures r.Ran? ==> inner.calls[|old(inner.calls)|] == Call(name, args,
                if IsGated(gated, name) && inner.bindable then Binding(Confirming(bound), confirm) else old(inner.bound))
      // So an approved call keeps the conversation and depth it belongs to.
      ensures (r.Ran? && IsGated(gated, name) && inner.bindable && confirm.Binds?)
                ==> Keeps(bound, inner.calls[|old(inner.calls)|].under)
      // What is bound afterwards, however the call ended.
      ensures r.Ran? ==> inner.bound == if !IsGated(gated, name) || !inner.bindable then old(inner.bound)
                                        else if confirm.Raises? then confirm.left else Binding(bound, restore)
      // The run's own bind is back exactly when neither bind raised, raising ones leaving something else behind.
      ensures (r.Ran? && IsGated(gated, name) && inner.bindable && Leaves(confirm, bound) && Leaves(restore, bound))
                ==> (inner.bound == bound <==> confirm.Binds? && restore.Binds?)
    {
      if !IsGated(gated, name) {
        var reply' := inner.CallTool(name, args, reply);
        return Ran(reply');
      }
      if verdict != Approved {
        return Refused(verdict);
      }
      var ran := CallConfirmed(name, args, confirm, restore, reply);
      return Ran(ran);
    }

    method CallConfirmed(name: string, args: string, confirm: BindFate, restore: BindFate, reply: Reply) returns (r: Reply)
      modifies inner
      ensures r == reply
      ensures inner.calls == old(inner.calls)
                + [Call(name, args, if inner.bindable then Binding(Confirming(bound), confirm) else old(inner.bound))]
      ensures inner.bound == if !inner.bindable then old(inner.bound)
                             else if confirm.Raises? then confirm.left else Binding(bound, restore)
    {
      if !inner.bindable {
        r := inner.CallTool(name, args, reply);
        return;
      }
      var confirmed := inner.Bind(Confirming(bound), confirm);
      if !confirmed {
        r := inner.CallTool(name, args, reply);
        return;
      }
      r := inner.CallTool(name, args, reply);
      var _ := inner.Bind(bound, restore);
    }
  }
}
