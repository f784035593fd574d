/**
 `app/sentence_splitter.py`: the incremental scanner between the token stream and speech.

 The functions say what one scan of a whole text does; the class is the stateful splitter,
 each of whose methods is proved to do to its buffer exactly what those functions say.
 */
module SentenceSplitting {
  import opened Text
  import opened Wrappers

  predicate IsTerminator(c: char) { c in ".!?" }

  predicate IsCloser(c: char) { c in "\"')]}\U{201D}\U{2019}" }

  const ABBREVIATIONS: set<string> := {
    "mr.", "mrs.", "ms.", "dr.", "prof.", "sr.", "jr.", "st.",
    "vs.", "etc.", "e.g.", "i.e.", "a.m.", "p.m.", "u.s.", "u.k.",
    "no.", "fig.", "approx.", "dept.", "gen.", "gov.", "inc.", "ltd."
  }

  predicate IsAbbreviation(word: string) { Lower(word) in ABBREVIATIONS }

  /** The first index at or after `from` that holds no closing quote or bracket. */
  function RunEnd(buf: string, from: nat): (e: nat)
    requires from <= |buf|
    ensures from <= e <= |buf|
    ensures forall k :: from <= k < e ==> IsCloser(buf[k])
    ensures e < |buf| ==> !IsCloser(buf[e])
    decreases |buf| - from
  {
    if from < |buf| && IsCloser(buf[from]) then RunEnd(buf, from + 1) else from
  }

  /** Where the unbroken word ending at `end` begins. */
  function WordStart(buf: string, end: nat): (s: nat)
    requires end <= |buf|
    ensures s <= end
    ensures forall k :: s <= k < end ==> !IsSpace(buf[k])
    ensures 0 < s ==> IsSpace(buf[s - 1])
  {
    if 0 < end && !IsSpace(buf[end - 1]) then WordStart(buf, end - 1) else end
  }

  /** The unbroken word that ends with the character at `i`. */
  function Trailing(buf: string, i: nat): string
    requires i < |buf|
  {
    buf[WordStart(buf, i + 1)..i + 1]
  }

  predicate FalseSplit(buf: string, i: nat)
    requires i < |buf|
  {
    IsAbbreviation(Trailing(buf, i))
  }

  /** The cut that the character at `i` calls for, if any. */
  function CutAt(buf: string, i: nat): (cut: Option<nat>)
    requires i < |buf|
    ensures cut.Some? ==> i < cut.value <= |buf|
  {
    if buf[i] == '\n' then Some(i + 1)
    else if !IsTerminator(buf[i]) then None
    else
      var e := RunEnd(buf, i + 1);
      if e < |buf| && IsSpace(buf[e]) && !FalseSplit(buf, i) then Some(e) else None
  }

  /** The cut called for by the first character, from `from` on, that calls for one. */
  function Boundary(buf: string, from: nat): (cut: Option<nat>)
    requires from <= |buf|
    ensures cut.Some? ==> from < cut.value <= |buf|
    decreases |buf| - from
  {
    if from == |buf| then None
    else if CutAt(buf, from).Some? then CutAt(buf, from)
    else Boundary(buf, from + 1)
  }

  function Spoken(piece: string): seq<string> {
    var s := Strip(piece);
    if s != "" then [s] else []
  }

  datatype Drained = Drained(out: seq<string>, rest: string)

  /** Everything that can be cut off a buffer, and the unfinished remainder. */
  function Drain(buf: string): Drained
    decreases |buf|
  {
    match Boundary(buf, 0)
    case None => Drained([], buf)
    case Some(cut) =>
      var tail := Drain(buf[cut..]);
      Drained(Spoken(buf[..cut]) + tail.out, tail.rest)
  }

  /** The batch form: every sentence of a text that has arrived whole. */
  function SplitComplete(text: string): seq<string> {
    var d := Drain(text);
    d.out + Spoken(d.rest)
  }

  class SentenceSplitter {
    var buf: string

    /** Nothing more can be cut off what is held: true after construction and every call. */
    ghost predicate Settled()
      reads this
    {
      Boundary(buf, 0) == None
    }

    constructor ()
      ensures buf == "" && Settled()
    {
      buf := "";
    }

    method Feed(text: string) returns (out: seq<string>)
      requires Settled()
      modifies this
      ensures Drained(out, buf) == Drain(old(buf) + text)
      ensures Settled()
    {
      if text == "" {
        assert buf + text == buf;
        return [];
      }
      buf := buf + text;
      out := DrainBuffer();
    }

    method Flush() returns (out: seq<string>)
      modifies this
      ensures out == Spoken(old(buf)) && buf == "" && Settled()
    {
      var remaining := Strip(buf);
      buf := "";
      out := if remaining != "" then [remaining] else [];
    }

    method DrainBuffer() returns (out: seq<string>)
      modifies this
      ensures Drained(out, buf) == Drain(old(buf))
      ensures Settled()
    {
      out := [];
      while true
        invariant Drain(old(buf)) == Drained(out + Drain(buf).out, Drain(buf).rest)
        decreases |buf|
      {
        var cut := FindBoundary();
        if cut == None {
          assert out + [] == out;
          return;
        }
        OneCut(out, buf, cut.value);
        var sentence := Strip(buf[..cut.value]);
        buf := buf[cut.value..];
        if sentence != "" {
          out := out + [sentence];
        }
      }
    }

    method FindBoundary() returns (cut: Option<nat>)
      ensures cut == Boundary(buf, 0)
    {
      for i := 0 to |buf|
        invariant Boundary(buf, 0) == Boundary(buf, i)
      {
        if buf[i] == '\n' {
          return Some(i + 1);
        }
        if !IsTerminator(buf[i]) {
          continue;
        }
        var end := i + 1;
        while end < |buf| && IsCloser(buf[end])
          invariant i < end <= |buf|
          invariant RunEnd(buf, i + 1) == RunEnd(buf, end)
        {
          end := end + 1;
        }
        if end >= |buf| || !IsSpace(buf[end]) {
          continue;
        }
        var falseSplit := IsFalseSplit(i);
        if falseSplit {
          continue;
        }
        return Some(end);
      }
      return None;
    }

    method IsFalseSplit(i: nat) returns (r: bool)
      requires i < |buf|
      ensures r == FalseSplit(buf, i)
    {
      var word := TrailingWord(i + 1);
      r := IsAbbreviation(word);
    }

    method TrailingWord(end: nat) returns (word: string)
      requires end <= |buf|
      ensures word == buf[WordStart(buf, end)..end]
    {
      var start := end;
      while start > 0 && !IsSpace(buf[start - 1])
        invariant 0 <= start <= end
        invariant WordStart(buf, end) == WordStart(buf, start)
      {
        start := start - 1;
      }
      word := buf[start..end];
    }
  }

  lemma OneCut(out: seq<string>, buf: string, cut: nat)
    requires Boundary(buf, 0) == Some(cut)
    ensures Drained(out + Drain(buf).out, Drain(buf).rest)
         == Drained(out + Spoken(buf[..cut]) + Drain(buf[cut..]).out, Drain(buf[cut..]).rest)
    ensures Strip(buf[..cut]) == "" ==> out + Spoken(buf[..cut]) == out
  {
    var head, tail := Spoken(buf[..cut]), Drain(buf[cut..]);
    assert Drain(buf) == Drained(head + tail.out, tail.rest);
    Regroup(out, head, tail.out);
  }

  lemma Regroup<T>(a: seq<T>, b: seq<T>, c: seq<T>)
    ensures a + (b + c) == a + b + c
  {
  }

  method StreamSentences(chunks: seq<string>) returns (out: seq<string>)
    ensures out == Streamed("", chunks)
  {
    var splitter := new SentenceSplitter();
    out := [];
    for n := 0 to |chunks|
      invariant splitter.Settled()
      invariant Streamed("", chunks) == out + Streamed(splitter.buf, chunks[n..])
    {
      assert chunks[n..][1..] == chunks[n + 1..];
      var sentences := splitter.Feed(chunks[n]);
      out := out + sentences;
    }
    var last := splitter.Flush();
    out := out + last;
  }

  /** What a splitter holding `buf` yields over the chunks still to come, then at the end. */
  function Streamed(buf: string, chunks: seq<string>): seq<string>
    decreases |chunks|
  {
    if chunks == [] then Spoken(buf)
    else
      var d := Drain(buf + chunks[0]);
      d.out + Streamed(d.rest, chunks[1..])
  }
}
