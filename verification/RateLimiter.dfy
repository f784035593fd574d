/** `app/ratelimit.py`: the sliding-window limiter, over real-valued times. */
module RateLimiting {
  import opened Collections

  ghost predicate Ascending(s: seq<real>) {
    forall i, j :: 0 <= i <= j < |s| ==> s[i] <= s[j]
  }

  function Purge(events: seq<real>, cutoff: real): seq<real> {
    if events != [] && events[0] <= cutoff then Purge(events[1..], cutoff) else events
  }

  datatype Verdict = Verdict(events: seq<real>, admitted: bool)

  function Allow(max: int, window: real, events: seq<real>, now: real): Verdict {
    if max <= 0 then Verdict(events, true)
    else
      var kept := Purge(events, now - window);
      if |kept| >= max then Verdict(kept, false) else Verdict(kept + [now], true)
  }

  function RetryAfter(max: int, window: real, events: seq<real>, now: real): real {
    if max <= 0 || events == [] || events[0] + window - now <= 0.0 then 0.0
    else events[0] + window - now
  }

  class RateLimiter {
    const maxEvents: int
    const windowS: real
    var events: seq<real>

    constructor (maxEvents: int, windowS: real)
      ensures this.maxEvents == maxEvents && this.windowS == windowS && events == []
    {
      this.maxEvents, this.windowS, this.events := maxEvents, windowS, [];
    }

    method PurgeOld(now: real)
      modifies this
      ensures events == Purge(old(events), now - windowS)
    {
      var cutoff := now - windowS;
      while events != [] && events[0] <= cutoff
        invariant Purge(events, cutoff) == Purge(old(events), cutoff)
        decreases |events|
      {
        events := events[1..];
      }
    }

    method Admit(now: real) returns (admitted: bool)
      modifies this
      ensures Verdict(events, admitted) == Allow(maxEvents, windowS, old(events), now)
    {
      if maxEvents <= 0 {
        return true;
      }
      PurgeOld(now);
      if |events| >= maxEvents {
        return false;
      }
      events := events + [now];
      return true;
    }

    method WaitFor(now: real) returns (seconds: real)
      ensures seconds == RetryAfter(maxEvents, windowS, events, now)
    {
      if maxEvents <= 0 || events == [] {
        return 0.0;
      }
      var left := events[0] + windowS - now;
      return if left > 0.0 then left else 0.0;
    }
  }

  // ---- Whole runs of calls ----

  /** A run so far: what the limiter holds, and every time it has admitted. */
  datatype Run = Run(events: seq<real>, admitted: seq<real>)

  function After(max: int, window: real, calls: seq<real>): Run {
    if calls == [] then Run([], [])
    else
      var before := After(max, window, calls[..|calls| - 1]);
      var now := calls[|calls| - 1];
      var v := Allow(max, window, before.events, now);
      Run(v.events, if v.admitted then before.admitted + [now] else before.admitted)
  }

  /** The admission at `i` and the one `max` later are a whole window apart. */
  ghost predicate Apart(admitted: seq<real>, max: nat, window: real, i: int) {
    0 <= i && i + max < |admitted| ==> admitted[i] + window <= admitted[i + max]
  }

  /** What the limiter holds is the tail of what it admitted; the rest has left the window. */
  ghost predicate Tracks(max: int, window: real, run: Run, clock: real) {
    var forgotten := |run.admitted| - |run.events|;
    && |run.events| <= max && 0 <= forgotten
    && run.events == run.admitted[forgotten..]
    && Ascending(run.admitted)
    && (forall i :: 0 <= i < |run.admitted| ==> run.admitted[i] <= clock)
    && (forall i :: 0 <= i < forgotten ==> run.admitted[i] <= clock - window)
    && (forall i :: Apart(run.admitted, max, window, i))
  }

  lemma {:induction false} PurgeDrops(events: seq<real>, cutoff: real) returns (gone: nat)
    requires Ascending(events)
    ensures gone <= |events| && Purge(events, cutoff) == events[gone..]
    ensures forall i :: 0 <= i < |events| ==> (events[i] <= cutoff <==> i < gone)
  {
    if events != [] && events[0] <= cutoff {
      gone := PurgeDrops(events[1..], cutoff);
      gone := gone + 1;
    } else {
      gone := 0;
    }
  }

  lemma {:induction false} RunTracks(max: int, window: real, calls: seq<real>)
    requires max > 0 && calls != [] && Ascending(calls)
    ensures Tracks(max, window, After(max, window, calls), calls[|calls| - 1])
  {
    var init, now := calls[..|calls| - 1], calls[|calls| - 1];
    var before := After(max, window, init);
    if init != [] {
      RunTracks(max, window, init);
      assert init[|init| - 1] == calls[|init| - 1] <= now;
    }
    TrackStep(max, window, before, if init == [] then now else init[|init| - 1], now);
  }

  lemma TrackStep(max: int, window: real, run: Run, clock: real, now: real)
    requires max > 0 && Tracks(max, window, run, clock) && clock <= now
    ensures var v := Allow(max, window, run.events, now);
            Tracks(max, window, Run(v.events, if v.admitted then run.admitted + [now] else run.admitted), now)
  {
    var forgotten := Forgotten(max, window, run, clock, now);
    var v := Allow(max, window, run.events, now);
    var next := Run(v.events, if v.admitted then run.admitted + [now] else run.admitted);
    if |run.admitted| - forgotten < max {
      Admitted(max, window, run, clock, now, forgotten);
      assert next == Run(run.admitted[forgotten..] + [now], run.admitted + [now]);
    } else {
      Turned(max, window, run, clock, now);
      assert next == run;
    }
  }

  /** A refusal means nothing had left the window. */
  lemma Turned(max: int, window: real, run: Run, clock: real, now: real)
    requires Tracks(max, window, run, clock) && clock <= now
    ensures Tracks(max, window, run, now)
  {
  }

  /** Purging at `now` leaves a tail of the admissions, and all before it have left the window. */
  lemma Forgotten(max: int, window: real, run: Run, clock: real, now: real) returns (forgotten: nat)
    requires Tracks(max, window, run, clock) && clock <= now
    ensures |run.admitted| - |run.events| <= forgotten <= |run.admitted|
    ensures Purge(run.events, now - window) == run.admitted[forgotten..]
    ensures forall i :: 0 <= i < forgotten ==> run.admitted[i] <= now - window
  {
    forgotten := PurgeTail(run.admitted, |run.admitted| - |run.events|, now - window);
  }

  lemma PurgeTail(admitted: seq<real>, before: nat, cutoff: real) returns (forgotten: nat)
    requires before <= |admitted| && Ascending(admitted)
    requires forall i :: 0 <= i < before ==> admitted[i] <= cutoff
    ensures before <= forgotten <= |admitted| && Purge(admitted[before..], cutoff) == admitted[forgotten..]
    ensures forall i :: 0 <= i < forgotten ==> admitted[i] <= cutoff
  {
    var gone := PurgeDrops(admitted[before..], cutoff);
    forgotten := before + gone;
    forall i | before <= i < forgotten ensures admitted[i] <= cutoff {
      assert admitted[before..][i - before] == admitted[i];
    }
  }

  lemma Admitted(max: int, window: real, run: Run, clock: real, now: real, forgotten: nat)
    requires max > 0 && Tracks(max, window, run, clock) && clock <= now
    requires forgotten <= |run.admitted| < forgotten + max
    requires forall i :: 0 <= i < forgotten ==> run.admitted[i] <= now - window
    ensures Tracks(max, window, Run(run.admitted[forgotten..] + [now], run.admitted + [now]), now)
  {
    var longer := run.admitted + [now];
    assert longer[forgotten..] == run.admitted[forgotten..] + [now];
    forall i ensures Apart(longer, max, window, i) {
      assert Apart(run.admitted, max, window, i);
    }
  }

  /** Admissions at least `window` apart at distance `max` put at most `max` in any window. */
  lemma SpacedIsSparse(max: int, window: real, admitted: seq<real>, from: real)
    requires max > 0 && Ascending(admitted)
    requires forall i :: Apart(admitted, max, window, i)
    ensures |set i | 0 <= i < |admitted| && from <= admitted[i] < from + window| <= max
  {
    var inside := set i | 0 <= i < |admitted| && from <= admitted[i] < from + window;
    var first := 0;
    while first < |admitted| && admitted[first] < from
      invariant 0 <= first <= |admitted|
      invariant forall i :: 0 <= i < first ==> admitted[i] < from
    {
      first := first + 1;
    }
    assert Apart(admitted, max, window, first);
    assert forall i :: i in inside ==> first <= i < first + max;
    RangeBound(inside, first, max);
  }

  lemma {:induction false} RangeBound(s: set<int>, first: int, n: nat)
    requires forall i :: i in s ==> first <= i < first + n
    ensures |s| <= n
  {
    if n == 0 {
      assert forall i: int :: i !in s;
      NoMembers(s);
    } else {
      var last := first + n - 1;
      RangeBound(s - {last}, first, n - 1);
      assert |s| <= |s - {last}| + 1;
    }
  }

  lemma {:induction false} RangeCovered(s: set<int>, first: int, n: nat)
    requires forall i :: first <= i < first + n ==> i in s
    ensures n <= |s|
  {
    if n > 0 {
      var last := first + n - 1;
      assert last in s;
      RangeCovered(s - {last}, first, n - 1);
    }
  }

  /** No half-open window of length `window` ever holds more than `max` admissions. */
  lemma SlidingWindow(max: int, window: real, calls: seq<real>, from: real)
    requires max > 0 && Ascending(calls)
    ensures var admitted := After(max, window, calls).admitted;
            |set i | 0 <= i < |admitted| && from <= admitted[i] < from + window| <= max
  {
    if calls != [] {
      RunTracks(max, window, calls);
    }
    SpacedIsSparse(max, window, After(max, window, calls).admitted, from);
  }

  /** A refusal means the window ending now really is full. */
  lemma RefusedOnlyWhenFull(max: int, window: real, calls: seq<real>, now: real)
    requires max > 0 && Ascending(calls + [now])
    requires !Allow(max, window, After(max, window, calls).events, now).admitted
    ensures var admitted := After(max, window, calls).admitted;
            |set i | 0 <= i < |admitted| && now - window < admitted[i] <= now| == max
  {
    var run := After(max, window, calls);
    assert calls == (calls + [now])[..|calls|];
    assert forall i :: 0 <= i < |calls| ==> (calls + [now])[i] == calls[i];
    RunTracks(max, window, calls);
    assert calls[|calls| - 1] == (calls + [now])[|calls| - 1] <= (calls + [now])[|calls|] == now;
    FullWindow(max, window, run, calls[|calls| - 1], now);
  }

  lemma FullWindow(max: int, window: real, run: Run, clock: real, now: real)
    requires max > 0 && Tracks(max, window, run, clock) && clock <= now
    requires !Allow(max, window, run.events, now).admitted
    ensures |set i | 0 <= i < |run.admitted| && now - window < run.admitted[i] <= now| == max
  {
    var gone := PurgeDrops(run.events, now - window);
    assert gone == 0 && |run.events| == max;
    var forgotten := |run.admitted| - |run.events|;
    var inside := set i | 0 <= i < |run.admitted| && now - window < run.admitted[i] <= now;
    forall i | forgotten <= i < |run.admitted| ensures i in inside {
      assert run.admitted[i] == run.events[i - forgotten];
    }
    RangeBound(inside, forgotten, max);
    RangeCovered(inside, forgotten, max);
  }

  /** Admission at any later time, in terms of what is held: the exact test. */
  lemma AdmittedIff(max: int, window: real, events: seq<real>, now: real)
    requires max > 0 && |events| <= max && Ascending(events)
    ensures Allow(max, window, events, now).admitted <==> |events| < max || events[0] + window <= now
  {
    var gone := PurgeDrops(events, now - window);
  }

  /** Waiting as long as `retry_after` says is enough, and when full no shorter wait is. */
  lemma RetryIsExact(max: int, window: real, calls: seq<real>, now: real, wait: real)
    requires Ascending(calls) && wait >= 0.0
    ensures var events := After(max, window, calls).events;
            && (wait >= RetryAfter(max, window, events, now) ==> Allow(max, window, events, now + wait).admitted)
            && (max > 0 && |events| == max && wait < RetryAfter(max, window, events, now)
                ==> !Allow(max, window, events, now + wait).admitted)
  {
    if max > 0 {
      if calls != [] { RunTracks(max, window, calls); }
      AdmittedIff(max, window, After(max, window, calls).events, now + wait);
    }
  }

  /**
   The documented "0 if room now" holds of exactly the states that are empty, full, or
   whose oldest event has already left: with room to spare and a live event it reports a wait.
   */
  lemma RetryZeroIffNoSpareRoom(max: int, window: real, events: seq<real>, now: real)
    requires max > 0 && |events| <= max && Ascending(events)
    ensures (Allow(max, window, events, now).admitted ==> RetryAfter(max, window, events, now) == 0.0)
            <==> !(0 < |events| < max && now < events[0] + window)
  {
    AdmittedIff(max, window, events, now);
  }

  lemma RetryWithRoomToSpare()
    ensures Allow(2, 10.0, [0.0], 1.0).admitted && RetryAfter(2, 10.0, [0.0], 1.0) == 9.0
  {
  }
}
