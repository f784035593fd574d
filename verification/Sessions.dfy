/**
 The session registry of `app/session.py`: resumable for a while, and capped by giving up
 whoever has been idle longest. The registry is a list in the order sessions were created.
 */
module Sessions {
  import opened Wrappers

  datatype Session = Session(id: string, lastActive: real)

  predicate Holds(s: seq<Session>, id: string) {
    exists i :: 0 <= i < |s| && s[i].id == id
  }

  predicate IsExpired(x: Session, now: real, ttl: real) { now - x.lastActive > ttl }

  function Live(s: seq<Session>, now: real, ttl: real): seq<Session> {
    if s == [] then []
    else
      var n := |s| - 1;
      Live(s[..n], now, ttl) + if IsExpired(s[n], now, ttl) then [] else [s[n]]
  }

  /** What a call finds in the registry; no time limit keeps everyone. */
  function Found(s: seq<Session>, now: real, ttl: real): seq<Session> {
    if ttl <= 0.0 then s else Live(s, now, ttl)
  }

  /** The first of those idle longest. */
  function Oldest(s: seq<Session>): (m: nat)
    requires s != []
    ensures m < |s|
    ensures forall i :: 0 <= i < |s| ==> s[m].lastActive <= s[i].lastActive
    ensures forall i :: 0 <= i < m ==> s[m].lastActive < s[i].lastActive
  {
    var n := |s| - 1;
    if n == 0 then 0
    else
      var m := Oldest(s[..n]);
      assert forall i :: 0 <= i < n ==> s[..n][i] == s[i];
      if s[n].lastActive < s[m].lastActive then n else m
  }

  function Without(s: seq<Session>, i: nat): seq<Session>
    requires i < |s|
  {
    s[..i] + s[i + 1..]
  }

  function Capped(s: seq<Session>, max: int): seq<Session>
    decreases |s|
  {
    if max <= 0 || |s| <= max then s else Capped(Without(s, Oldest(s)), max)
  }

  function TouchedAt(s: seq<Session>, id: string, now: real): (t: seq<Session>)
    ensures |t| == |s| && forall i :: 0 <= i < |s| ==> t[i] == if s[i].id == id then s[i].(lastActive := now) else s[i]
  {
    seq(|s|, i requires 0 <= i < |s| => if s[i].id == id then s[i].(lastActive := now) else s[i])
  }

  function Replaced(s: seq<Session>, x: Session): (t: seq<Session>)
    ensures |t| == |s| && forall i :: 0 <= i < |s| ==> t[i] == if s[i].id == x.id then x else s[i]
  {
    seq(|s|, i requires 0 <= i < |s| => if s[i].id == x.id then x else s[i])
  }

  /** Registering under an id: in the place of a session that has it, or else at the end. */
  function Registered(s: seq<Session>, x: Session): seq<Session> {
    if Holds(s, x.id) then Replaced(s, x) else s + [x]
  }

  class SessionManager {
    var sessions: seq<Session>
    const ttl: real
    const maxSessions: int

    constructor (ttl: real, maxSessions: int)
      ensures sessions == [] && this.ttl == ttl && this.maxSessions == maxSessions
    {
      sessions, this.ttl, this.maxSessions := [], ttl, maxSessions;
    }

    method EvictExpired(now: real)
      modifies this
      ensures sessions == Found(old(sessions), now, ttl)
      ensures forall x :: x in sessions <==> x in old(sessions) && (ttl <= 0.0 || now - x.lastActive <= ttl)
    {
      LiveAre(sessions, now, ttl);
      if ttl <= 0.0 {
        return;
      }
      var kept: seq<Session> := [];
      for i := 0 to |sessions|
        invariant sessions == old(sessions) && kept == Live(sessions[..i], now, ttl)
      {
        assert sessions[..i + 1][..i] == sessions[..i];
        if !IsExpired(sessions[i], now, ttl) {
          kept := kept + [sessions[i]];
        }
      }
      assert sessions[..|sessions|] == sessions;
      sessions := kept;
    }

    method EnforceCapacity()
      modifies this
      ensures sessions == Capped(old(sessions), maxSessions)
    {
      if maxSessions <= 0 {
        return;
      }
      while |sessions| > maxSessions
        invariant Capped(sessions, maxSessions) == Capped(old(sessions), maxSessions)
        decreases |sessions|
      {
        sessions := Without(sessions, Oldest(sessions));
      }
    }

    /** A presented id is honoured only while it is live; otherwise `drawn`, a random id, is registered. */
    method ResumeOrCreate(presented: Option<string>, drawn: string, now: real) returns (id: string, resumed: bool)
      modifies this
      ensures resumed == (presented.Some? && presented.value != "" && Holds(Found(old(sessions), now, ttl), presented.value))
      ensures id == if resumed then presented.value else drawn
      ensures sessions == if resumed then TouchedAt(Found(old(sessions), now, ttl), id, now)
                          else Capped(Registered(Found(old(sessions), now, ttl), Session(drawn, now)), maxSessions)
      // Resuming restarts the clock, and changes nobody else's.
      ensures resumed ==> Session(id, now) in sessions
      ensures resumed ==> forall x :: x in sessions && x.id != id ==> x in old(sessions)
    {
      EvictExpired(now);
      if presented.Some? && presented.value != "" {
        if Holds(sessions, presented.value) {
          TouchedIs(sessions, presented.value, now);
          LiveAre(old(sessions), now, ttl);
          sessions := TouchedAt(sessions, presented.value, now);
          return presented.value, true;
        }
      }
      sessions := Registered(sessions, Session(drawn, now));
      EnforceCapacity();
      return drawn, false;
    }

    method Touch(id: string, now: real)
      modifies this
      ensures sessions == TouchedAt(old(sessions), id, now)
    {
      sessions := TouchedAt(sessions, id, now);
    }
  }

  lemma TouchedIs(s: seq<Session>, id: string, now: real)
    requires Holds(s, id)
    ensures Session(id, now) in TouchedAt(s, id, now)
    ensures forall x :: x in TouchedAt(s, id, now) && x.id != id ==> x in s
  {
    var t := TouchedAt(s, id, now);
    var i :| 0 <= i < |s| && s[i].id == id;
    assert t[i] == Session(id, now);
    forall x | x in t && x.id != id ensures x in s {
      var k :| 0 <= k < |t| && t[k] == x;
      assert s[k] == x;
    }
  }

  lemma {:induction false} LiveAre(s: seq<Session>, now: real, ttl: real)
    ensures forall x :: x in Live(s, now, ttl) <==> x in s && !IsExpired(x, now, ttl)
  {
    if s != [] {
      var n := |s| - 1;
      LiveAre(s[..n], now, ttl);
      assert s == s[..n] + [s[n]];
    }
  }

  /** A session can be resumed exactly while it is registered and within its time. */
  lemma ResumableIff(s: seq<Session>, now: real, ttl: real, id: string)
    ensures Holds(Found(s, now, ttl), id) <==> exists x :: x in s && x.id == id && (ttl <= 0.0 || now - x.lastActive <= ttl)
  {
    LiveAre(s, now, ttl);
    var found := Found(s, now, ttl);
    if Holds(found, id) {
      var i :| 0 <= i < |found| && found[i].id == id;
      assert found[i] in found;
    }
  }

  // ---- Who stays when there are too many ----

  lemma {:induction false} CappedSize(s: seq<Session>, max: int)
    ensures |Capped(s, max)| == if 0 < max < |s| then max else |s|
    decreases |s|
  {
    if 0 < max < |s| {
      CappedSize(Without(s, Oldest(s)), max);
    }
  }

  lemma {:induction false} CappedAreMembers(s: seq<Session>, max: int)
    ensures forall x :: x in Capped(s, max) ==> x in s
    decreases |s|
  {
    if 0 < max < |s| {
      CappedAreMembers(Without(s, Oldest(s)), max);
    }
  }

  /** Nobody is given up while someone idle for longer is kept. */
  lemma {:induction false} LongestIdleGoFirst(s: seq<Session>, max: int, gone: Session, kept: Session)
    requires gone in s && gone !in Capped(s, max) && kept in Capped(s, max)
    ensures gone.lastActive <= kept.lastActive
    decreases |s|
  {
    if 0 < max < |s| {
      var m := Oldest(s);
      CappedAreMembers(s, max);
      if gone in Without(s, m) {
        LongestIdleGoFirst(Without(s, m), max, gone, kept);
      } else {
        assert gone == s[m];
      }
    }
  }

  lemma OldestIsNotNewest(s: seq<Session>, x: Session)
    requires s != [] && forall y :: y in s ==> y.lastActive <= x.lastActive
    ensures var m := Oldest(s + [x]); m < |s| && Without(s + [x], m) == Without(s, m) + [x]
  {
    var longer := s + [x];
    assert longer[0] == s[0] && longer[|s|] == x && s[0] in s;
    WithoutLonger(s, x, Oldest(longer));
  }

  lemma WithoutLonger(s: seq<Session>, x: Session, m: nat)
    requires m <= |s|
    ensures m < |s| ==> Without(s + [x], m) == Without(s, m) + [x]
  {
  }

  lemma OneGoes(s: seq<Session>, max: int)
    requires 0 < max < |s|
    ensures Capped(s, max) == Capped(Without(s, Oldest(s)), max)
  {
  }

  /** With a clock that never runs backwards, a new session is never the one given up to make room for itself. */
  lemma {:induction false} NewcomerStays(s: seq<Session>, max: int, x: Session)
    requires forall y :: y in s ==> y.lastActive <= x.lastActive
    ensures var c := Capped(s + [x], max); c != [] && c[|c| - 1] == x
    decreases |s|
  {
    if 0 < max < |s + [x]| {
      var m := Oldest(s + [x]);
      OldestIsNotNewest(s, x);
      OneGoes(s + [x], max);
      NewcomerStays(Without(s, m), max, x);
    }
  }

  /** So whoever is registered is found again, even under an id drawn twice, once the registry is within its cap. */
  lemma NewcomerIsKept(s: seq<Session>, max: int, x: Session)
    requires forall y :: y in s ==> y.lastActive <= x.lastActive
    requires 0 < max ==> |s| <= max
    ensures x in Capped(Registered(s, x), max)
  {
    if Holds(s, x.id) {
      var i :| 0 <= i < |s| && s[i].id == x.id;
      assert Replaced(s, x)[i] == x;
    } else {
      NewcomerStays(s, max, x);
    }
  }
}
