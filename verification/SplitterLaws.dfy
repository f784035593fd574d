/**
 What the sentence splitter promises over whole streams: it does not matter how the text
 was cut into chunks, nothing but whitespace is lost, and its output is a normal form.
 */
module SplitterLaws {
  import opened SentenceSplitting
  import opened Text
  import opened Wrappers

  // ---- The characters that steer the scan are of disjoint kinds ----

  lemma CharacterKinds(c: char)
    ensures IsCloser(c) ==> !IsTerminator(c) && !IsSpace(c)
    ensures IsTerminator(c) ==> !IsSpace(c)
    ensures IsSpace('\n') && !IsCloser('\n')
  {
  }

  // ---- More text cannot move a cut that was already called for ----

  lemma {:induction false} RunEndStable(buf: string, more: string, from: nat)
    requires from <= |buf| && RunEnd(buf, from) < |buf|
    ensures RunEnd(buf + more, from) == RunEnd(buf, from)
    decreases |buf| - from
  {
    if IsCloser(buf[from]) {
      RunEndStable(buf, more, from + 1);
    }
  }

  lemma {:induction false} WordStartStable(buf: string, more: string, end: nat)
    requires end <= |buf|
    ensures WordStart(buf + more, end) == WordStart(buf, end)
  {
    if 0 < end && !IsSpace(buf[end - 1]) {
      WordStartStable(buf, more, end - 1);
    }
  }

  lemma FalseSplitStable(buf: string, more: string, i: nat)
    requires i < |buf|
    ensures FalseSplit(buf + more, i) == FalseSplit(buf, i)
  {
    WordStartStable(buf, more, i + 1);
    assert (buf + more)[WordStart(buf, i + 1)..i + 1] == buf[WordStart(buf, i + 1)..i + 1];
  }

  /** Only a terminator whose closers run to the end of the buffer is undecided. */
  lemma CutAtStable(buf: string, more: string, i: nat)
    requires i < |buf|
    requires CutAt(buf, i).Some? || RunEnd(buf, i + 1) < |buf|
    ensures CutAt(buf + more, i) == CutAt(buf, i)
  {
    if buf[i] != '\n' {
      FalseSplitStable(buf, more, i);
      if IsTerminator(buf[i]) {
        RunEndStable(buf, more, i + 1);
      }
    }
  }

  /**
   The stability lemma. A cut found at `i` sits after every earlier undecided terminator,
   and is itself no closer, so it decides them all.
   */
  lemma {:induction false} BoundaryStable(buf: string, more: string, from: nat)
    requires from <= |buf| && Boundary(buf, from).Some?
    ensures Boundary(buf + more, from) == Boundary(buf, from)
    decreases |buf| - from
  {
    if CutAt(buf, from).Some? {
      CutAtStable(buf, more, from);
    } else {
      BoundaryStable(buf, more, from + 1);
      var i := BoundaryPosition(buf, from + 1);
      CharacterKinds(buf[i]);
      assert RunEnd(buf, from + 1) <= i;
      CutAtStable(buf, more, from);
    }
  }

  /** Where the first cut is called for. */
  lemma {:induction false} BoundaryPosition(buf: string, from: nat) returns (i: nat)
    requires from <= |buf| && Boundary(buf, from).Some?
    ensures from <= i < |buf| && CutAt(buf, i) == Boundary(buf, from)
    ensures buf[i] == '\n' || IsTerminator(buf[i])
    ensures forall j :: from <= j < i ==> CutAt(buf, j) == None
    decreases |buf| - from
  {
    if CutAt(buf, from).Some? {
      i := from;
    } else {
      i := BoundaryPosition(buf, from + 1);
    }
  }

  lemma {:induction false} NoBoundary(buf: string, from: nat)
    requires from <= |buf| && Boundary(buf, from) == None
    ensures forall j :: from <= j < |buf| ==> CutAt(buf, j) == None
    decreases |buf| - from
  {
    if from < |buf| {
      NoBoundary(buf, from + 1);
    }
  }

  lemma {:induction false} BoundaryIsFirst(buf: string, from: nat, i: nat)
    requires from <= i < |buf| && CutAt(buf, i).Some?
    requires forall j :: from <= j < i ==> CutAt(buf, j) == None
    ensures Boundary(buf, from) == CutAt(buf, i)
    decreases i - from
  {
    if from < i {
      BoundarySkips(buf, from);
      BoundaryIsFirst(buf, from + 1, i);
    }
  }

  lemma BoundarySkips(buf: string, from: nat)
    requires from < |buf| && CutAt(buf, from) == None
    ensures Boundary(buf, from) == Boundary(buf, from + 1)
  {
  }

  lemma {:induction false} BoundaryIsNone(buf: string, from: nat)
    requires from <= |buf| && forall j :: from <= j < |buf| ==> CutAt(buf, j) == None
    ensures Boundary(buf, from) == None
    decreases |buf| - from
  {
    if from < |buf| {
      BoundaryIsNone(buf, from + 1);
    }
  }

  // ---- Chunk invariance ----

  lemma DrainStep(buf: string, cut: nat)
    requires Boundary(buf, 0) == Some(cut)
    ensures Drain(buf) == Preceded(Spoken(buf[..cut]), Drain(buf[cut..]))
  {
  }

  function Preceded(head: seq<string>, d: Drained): Drained {
    Drained(head + d.out, d.rest)
  }

  lemma DrainStepMore(buf: string, more: string, cut: nat)
    requires Boundary(buf, 0) == Some(cut)
    ensures Drain(buf + more) == Preceded(Spoken(buf[..cut]), Drain(buf[cut..] + more))
  {
    BoundaryStable(buf, more, 0);
    DrainStep(buf + more, cut);
    assert (buf + more)[..cut] == buf[..cut];
    assert (buf + more)[cut..] == buf[cut..] + more;
  }

  /** Draining a longer buffer is draining the shorter one, then the remainder with the rest. */
  lemma {:induction false} DrainSplits(buf: string, more: string)
    ensures Drain(buf + more) == Preceded(Drain(buf).out, Drain(Drain(buf).rest + more))
    decreases |buf|
  {
    match Boundary(buf, 0)
    case None =>
      assert Drain(buf) == Drained([], buf);
    case Some(cut) =>
      var head, tail := Spoken(buf[..cut]), Drain(buf[cut..]);
      DrainStep(buf, cut);
      DrainStepMore(buf, more, cut);
      DrainSplits(buf[cut..], more);
      Regroup(head, tail.out, Drain(tail.rest + more).out);
  }

  lemma {:induction false} DrainSettles(buf: string)
    ensures Boundary(Drain(buf).rest, 0) == None
    ensures Drain(Drain(buf).rest) == Drained([], Drain(buf).rest)
    decreases |buf|
  {
    if Boundary(buf, 0).Some? {
      DrainSettles(buf[Boundary(buf, 0).value..]);
    }
  }

  lemma {:induction false} StreamedIsDrained(buf: string, chunks: seq<string>)
    requires Boundary(buf, 0) == None
    ensures var d := Drain(buf + Concat(chunks)); Streamed(buf, chunks) == d.out + Spoken(d.rest)
    decreases |chunks|
  {
    if chunks == [] {
      assert buf + Concat(chunks) == buf;
    } else {
      var soFar, later := buf + chunks[0], Concat(chunks[1..]);
      assert buf + Concat(chunks) == soFar + later;
      DrainSettles(soFar);
      StreamedIsDrained(Drain(soFar).rest, chunks[1..]);
      DrainSplits(soFar, later);
    }
  }

  /** However a text is cut into chunks, streaming it yields what splitting it whole yields. */
  lemma ChunkInvariance(chunks: seq<string>)
    ensures Streamed("", chunks) == SplitComplete(Concat(chunks))
  {
    StreamedIsDrained("", chunks);
    assert "" + Concat(chunks) == Concat(chunks);
  }

  /** What has been cut off so far is never taken back, whatever arrives later. */
  lemma EmittedIsPrefix(buf: string, more: string)
    ensures Drain(buf).out <= SplitComplete(buf + more)
    ensures Drain(buf).out <= SplitComplete(buf)
  {
    DrainSplits(buf, more);
  }

  // ---- Nothing but whitespace is lost ----

  lemma {:induction false} DrainKeepsText(buf: string)
    ensures Dense(Concat(Drain(buf).out)) + Dense(Drain(buf).rest) == Dense(buf)
    decreases |buf|
  {
    match Boundary(buf, 0)
    case None =>
    case Some(cut) =>
      DrainKeepsText(buf[cut..]);
      DrainStep(buf, cut);
      assert buf == buf[..cut] + buf[cut..];
      CutKeepsText(buf[..cut], buf[cut..], Drain(buf[cut..]));
  }

  lemma CutKeepsText(piece: string, tail: string, later: Drained)
    requires Dense(Concat(later.out)) + Dense(later.rest) == Dense(tail)
    ensures Dense(Concat(Spoken(piece) + later.out)) + Dense(later.rest) == Dense(piece + tail)
  {
    PieceKeepsText(piece, later.out);
    Regroup(Dense(piece), Dense(Concat(later.out)), Dense(later.rest));
    DenseConcat(piece, tail);
  }

  lemma PieceKeepsText(piece: string, out: seq<string>)
    ensures Dense(Concat(Spoken(piece) + out)) == Dense(piece) + Dense(Concat(out))
  {
    SpokenKeepsText(piece);
    ConcatAppend(Spoken(piece), out);
    DenseConcat(Concat(Spoken(piece)), Concat(out));
  }

  lemma SpokenKeepsText(piece: string)
    ensures Dense(Concat(Spoken(piece))) == Dense(piece)
  {
    DenseStrip(piece);
    if Strip(piece) != "" {
      assert [Strip(piece)][1..] == [];
      assert Concat([Strip(piece)]) == Strip(piece) + Concat([]) == Strip(piece);
    }
  }

  lemma NothingIsLost(text: string)
    ensures Dense(Concat(SplitComplete(text))) == Dense(text)
  {
    var d := Drain(text);
    DrainKeepsText(text);
    SpokenKeepsText(d.rest);
    ConcatAppend(d.out, Spoken(d.rest));
    DenseConcat(Concat(d.out), Concat(Spoken(d.rest)));
  }

  // ---- The output is a normal form ----

  /** A text with no cut inside it: non-empty, trimmed, and on one line. */
  ghost predicate Solid(s: string) {
    && s != "" && Trimmed(s) && '\n' !in s
    && forall i :: 0 <= i < |s| ==> CutAt(s, i) == None
  }

  /** `s` stands in `buf` at `off`, with whitespace or nothing on either side. */
  ghost predicate Window(buf: string, off: nat, s: string) {
    && off + |s| <= |buf|
    && (forall k :: 0 <= k < |s| ==> buf[off + k] == s[k])
    && (0 < off ==> IsSpace(buf[off - 1]))
    && (off + |s| < |buf| ==> IsSpace(buf[off + |s|]))
  }

  /** No cut, unless it is the one at `end`. */
  predicate NoneBut(cut: Option<nat>, end: nat) { cut == None || cut == Some(end) }

  lemma {:induction false} WindowRun(buf: string, off: nat, s: string, from: nat)
    requires Window(buf, off, s) && from <= |s|
    ensures RunEnd(buf, off + from) == off + RunEnd(s, from)
    decreases |s| - from
  {
    if from < |s| {
      assert buf[off + from] == s[from];
      if IsCloser(s[from]) {
        WindowRun(buf, off, s, from + 1);
      }
    } else if off + |s| < |buf| {
      CharacterKinds(buf[off + |s|]);
    }
  }

  lemma {:induction false} WindowWord(buf: string, off: nat, s: string, end: nat)
    requires Window(buf, off, s) && end <= |s|
    ensures WordStart(buf, off + end) == off + WordStart(s, end)
  {
    if 0 < end {
      assert buf[off + end - 1] == s[end - 1];
      if !IsSpace(s[end - 1]) {
        WindowWord(buf, off, s, end - 1);
      }
    }
  }

  lemma WindowTrailing(buf: string, off: nat, s: string, i: nat)
    requires Window(buf, off, s) && i < |s|
    ensures Trailing(buf, off + i) == Trailing(s, i)
  {
    WindowWord(buf, off, s, i + 1);
    WindowSlice(buf, off, s, WordStart(s, i + 1), i + 1);
  }

  lemma WindowSlice(buf: string, off: nat, s: string, a: nat, b: nat)
    requires Window(buf, off, s) && a <= b <= |s|
    ensures buf[off + a..off + b] == s[a..b]
  {
  }

  function Shifted(cut: Option<nat>, off: nat): Option<nat> {
    if cut == None then None else Some(off + cut.value)
  }

  /** Short of its last character's closers, a window is cut as it would be on its own. */
  ghost predicate CutsAlike(buf: string, j: nat, s: string, i: nat, off: nat)
    requires j < |buf| && i < |s|
  {
    if IsTerminator(s[i]) && RunEnd(s, i + 1) == |s|
    then CutAt(s, i) == None && NoneBut(CutAt(buf, j), off + |s|)
    else CutAt(buf, j) == Shifted(CutAt(s, i), off)
  }

  lemma WindowCut(buf: string, off: nat, s: string, i: nat)
    requires Window(buf, off, s) && i < |s| && s[i] != '\n'
    ensures CutsAlike(buf, off + i, s, i, off)
  {
    WindowAt(buf, off, s, i);
    if IsTerminator(s[i]) {
      WindowTerminator(buf, off, s, i);
    } else {
      NoTerminator(buf, off + i, s, i, off);
    }
  }

  lemma WindowAt(buf: string, off: nat, s: string, k: nat)
    requires Window(buf, off, s) && k < |s|
    ensures buf[off + k] == s[k]
  {
  }

  lemma WindowTerminator(buf: string, off: nat, s: string, i: nat)
    requires Window(buf, off, s) && i < |s| && s[i] != '\n' && IsTerminator(s[i])
    ensures CutsAlike(buf, off + i, s, i, off)
  {
    WindowAt(buf, off, s, i);
    if RunEnd(s, i + 1) < |s| {
      WindowInside(buf, off, s, i);
    } else {
      WindowRun(buf, off, s, i + 1);
      EndCut(buf, off + i, s, i, off);
    }
  }

  lemma WindowInside(buf: string, off: nat, s: string, i: nat)
    requires Window(buf, off, s) && i < |s| && s[i] != '\n' && IsTerminator(s[i]) && RunEnd(s, i + 1) < |s|
    requires buf[off + i] == s[i]
    ensures CutsAlike(buf, off + i, s, i, off)
  {
    WindowRun(buf, off, s, i + 1);
    WindowNext(buf, off, s, i);
    SameCut(buf, off + i, s, i, off);
  }

  lemma WindowNext(buf: string, off: nat, s: string, i: nat)
    requires Window(buf, off, s) && i < |s| && RunEnd(s, i + 1) < |s|
    ensures Trailing(buf, off + i) == Trailing(s, i) && buf[off + RunEnd(s, i + 1)] == s[RunEnd(s, i + 1)]
  {
    WindowTrailing(buf, off, s, i);
    WindowAt(buf, off, s, RunEnd(s, i + 1));
  }

  lemma NoTerminator(buf: string, j: nat, s: string, i: nat, off: nat)
    requires j < |buf| && i < |s| && buf[j] == s[i] != '\n' && !IsTerminator(s[i])
    ensures CutsAlike(buf, j, s, i, off)
  {
  }

  /** The same character, closers, next character and word give the same cut. */
  lemma SameCut(buf: string, j: nat, s: string, i: nat, off: nat)
    requires j < |buf| && i < |s| && buf[j] == s[i] != '\n' && IsTerminator(s[i])
    requires var e := RunEnd(s, i + 1); e < |s| && off + e < |buf| && RunEnd(buf, j + 1) == off + e && buf[off + e] == s[e]
    requires Trailing(buf, j) == Trailing(s, i)
    ensures CutsAlike(buf, j, s, i, off)
  {
    TerminatorCuts(s, i);
    TerminatorCuts(buf, j);
  }

  lemma EndCut(buf: string, j: nat, s: string, i: nat, off: nat)
    requires j < |buf| && i < |s| && buf[j] == s[i] != '\n' && IsTerminator(s[i])
    requires RunEnd(s, i + 1) == |s| && RunEnd(buf, j + 1) == off + |s|
    ensures CutsAlike(buf, j, s, i, off)
  {
    TerminatorCuts(s, i);
    TerminatorCuts(buf, j);
  }

  lemma TerminatorCuts(buf: string, i: nat)
    requires i < |buf| && buf[i] != '\n' && IsTerminator(buf[i])
    ensures var e := RunEnd(buf, i + 1);
            CutAt(buf, i) == if e < |buf| && IsSpace(buf[e]) && !IsAbbreviation(Trailing(buf, i)) then Some(e) else None
  {
  }

  /** A trimmed window is solid when the buffer calls for no cut inside it. */
  lemma WindowIsSolid(buf: string, off: nat, s: string)
    requires Window(buf, off, s) && s != "" && Trimmed(s)
    requires Whole(buf, off, s)
    ensures Solid(s)
  {
    forall i | 0 <= i < |s|
      ensures s[i] != '\n' && CutAt(s, i) == None
    {
      assert NoneBut(CutAt(buf, off + i), off + |s|);
      assert buf[off + i] == s[i];
      if s[i] == '\n' {
        CharacterKinds(s[i]);
        assert false;
      }
      WindowCut(buf, off, s, i);
    }
  }

  /** No cut falls inside the stretch of `buf` that `s` takes up. */
  ghost predicate Whole(buf: string, off: nat, s: string) {
    off + |s| <= |buf| && forall j :: off <= j < off + |s| ==> NoneBut(CutAt(buf, j), off + |s|)
  }

  lemma SpokenIsSolid(buf: string, cut: nat)
    requires cut <= |buf|
    requires Boundary(buf, 0) == Some(cut) || (Boundary(buf, 0) == None && cut == |buf|)
    ensures forall s :: s in Spoken(buf[..cut]) ==> Solid(s)
  {
    var l, r := StripCutsBlanks(buf[..cut]);
    var s := Strip(buf[..cut]);
    if s != "" {
      SpokenIsWhole(buf, cut, l, s, r);
      WindowIsSolid(buf, |l|, s);
    }
  }

  lemma SpokenIsWhole(buf: string, cut: nat, l: string, s: string, r: string)
    requires cut <= |buf| && buf[..cut] == l + s + r && s != "" && Trimmed(s) && Blank(l) && Blank(r)
    requires Boundary(buf, 0) == Some(cut) || (Boundary(buf, 0) == None && cut == |buf|)
    ensures Window(buf, |l|, s) && Whole(buf, |l|, s)
  {
    if Boundary(buf, 0) == None {
      NoBoundary(buf, 0);
      assert buf[cut..] == "";
    } else {
      CutKeepsSentenceWhole(buf, cut, l, s, r);
    }
    Placed(buf, cut, l, s, r);
  }

  lemma Placed(buf: string, cut: nat, l: string, s: string, r: string)
    requires cut <= |buf| && buf[..cut] == l + s + r && Blank(l)
    requires r + buf[cut..] != "" ==> IsSpace((r + buf[cut..])[0])
    ensures Window(buf, |l|, s)
  {
    var rest := r + buf[cut..];
    assert buf == buf[..cut] + buf[cut..] == l + s + rest;
  }

  lemma CutKeepsSentenceWhole(buf: string, cut: nat, l: string, s: string, r: string)
    requires Boundary(buf, 0) == Some(cut) && buf[..cut] == l + s + r && s != ""
    requires Trimmed(s) && Blank(r)
    ensures Whole(buf, |l|, s)
    ensures r + buf[cut..] != "" ==> IsSpace((r + buf[cut..])[0])
  {
    var i := BoundaryPosition(buf, 0);
    if buf[i] == '\n' {
      LineEndIsTrimmed(buf, i, l, s, r);
    } else {
      TerminatorCut(buf, i, cut);
      OnlyClosersFollow(buf, cut, l, s, r);
      CutsBefore(buf, i, cut);
    }
  }

  lemma CutsBefore(buf: string, i: nat, cut: nat)
    requires i < cut <= |buf| && CutAt(buf, i) == Some(cut)
    requires forall j :: 0 <= j < cut && j != i ==> CutAt(buf, j) == None
    ensures forall j :: 0 <= j < cut ==> NoneBut(CutAt(buf, j), cut)
  {
  }

  /** Only closers follow a terminator up to its cut, so there is nothing to trim on the right. */
  lemma OnlyClosersFollow(buf: string, cut: nat, l: string, s: string, r: string)
    requires 0 < cut <= |buf| && buf[..cut] == l + s + r && Blank(r) && !IsSpace(buf[cut - 1])
    ensures r == "" && cut == |l| + |s|
  {
    assert (l + s + r)[cut - 1] == buf[cut - 1];
  }

  lemma LineEndIsTrimmed(buf: string, i: nat, l: string, s: string, r: string)
    requires i < |buf| && buf[i] == '\n' && buf[..i + 1] == l + s + r && s != "" && Trimmed(s)
    ensures r != "" && |l| + |s| <= i
  {
    if r == "" {
      assert s[|s| - 1] == (l + s + r)[i] == buf[i];
      CharacterKinds(buf[i]);
      assert false;
    }
  }

  lemma TerminatorCut(buf: string, i: nat, cut: nat)
    requires i < |buf| && buf[i] != '\n' && CutAt(buf, i) == Some(cut)
    ensures i < cut < |buf| && !IsSpace(buf[cut - 1]) && IsSpace(buf[cut])
    ensures forall j :: i < j < cut ==> CutAt(buf, j) == None
  {
    assert cut == RunEnd(buf, i + 1);
    CharacterKinds(buf[cut - 1]);
    CharacterKinds('\n');
    forall j | i < j < cut ensures CutAt(buf, j) == None { CharacterKinds(buf[j]); }
  }

  lemma {:induction false} DrainIsSolid(buf: string)
    ensures forall s :: s in Drain(buf).out ==> Solid(s)
    decreases |buf|
  {
    match Boundary(buf, 0)
    case None =>
    case Some(cut) =>
      SpokenIsSolid(buf, cut);
      DrainIsSolid(buf[cut..]);
  }

  /** Every emitted sentence is non-empty, trimmed, on one line and not cuttable further. */
  lemma SentencesAreSolid(text: string)
    ensures forall s :: s in SplitComplete(text) ==> Solid(s)
  {
    var d := Drain(text);
    DrainIsSolid(text);
    DrainSettles(text);
    SpokenIsSolid(d.rest, |d.rest|);
    assert d.rest[..|d.rest|] == d.rest;
  }

  function Lines(sentences: seq<string>): string {
    if sentences == [] then ""
    else if |sentences| == 1 then sentences[0]
    else sentences[0] + "\n" + Lines(sentences[1..])
  }

  lemma SolidLine(s: string, rest: string)
    requires Solid(s)
    ensures SplitComplete(s + "\n" + rest) == [s] + SplitComplete(rest)
  {
    var text := s + "\n" + rest;
    SolidBoundary(s, rest);
    if Boundary(text, 0) == Some(|s|) {
      assert text[..|s|] == s && text[|s|..] == "\n" + rest;
      SpokenTrimmed(s, "");
      assert s + "" == s;
      DrainStep(text, |s|);
      BlankLine(rest);
    } else {
      assert text[..|s| + 1] == s + "\n" && text[|s| + 1..] == rest;
      SpokenTrimmed(s, "\n");
      DrainStep(text, |s| + 1);
    }
    assert Drain(text) == Preceded([s], Drain(rest));
    Regroup([s], Drain(rest).out, Spoken(Drain(rest).rest));
  }

  lemma SpokenTrimmed(s: string, r: string)
    requires Trimmed(s) && s != "" && Blank(r)
    ensures Spoken(s + r) == [s]
  {
    StripUnique("", s, r);
    assert "" + s + r == s + r;
  }

  lemma BlankLine(rest: string)
    ensures Drain("\n" + rest) == Drain(rest)
  {
    var tail := "\n" + rest;
    BoundaryIsFirst(tail, 0, 0);
    assert tail[..1] == "\n" && tail[1..] == rest;
    DrainStep(tail, 1);
    StripUnique("\n", "", "");
    assert "\n" + "" + "" == "\n";
  }

  lemma SolidBoundary(s: string, rest: string)
    requires Solid(s)
    ensures Boundary(s + "\n" + rest, 0) in {Some(|s|), Some(|s| + 1)}
  {
    var text := s + "\n" + rest;
    CharacterKinds('\n');
    assert Window(text, 0, s);
    forall i | 0 <= i < |s| ensures NoneBut(CutAt(text, i), |s|) {
      WindowCut(text, 0, s, i);
    }
    assert CutAt(text, |s|) == Some(|s| + 1);
    FirstCut(text, 0, |s|);
  }

  lemma {:induction false} FirstCut(buf: string, from: nat, last: nat)
    requires from <= last < |buf| && CutAt(buf, last) == Some(last + 1)
    requires forall i :: from <= i < last ==> NoneBut(CutAt(buf, i), last)
    ensures Boundary(buf, from) in {Some(last), Some(last + 1)}
    decreases last - from
  {
    if from < last && CutAt(buf, from) == None {
      FirstCut(buf, from + 1, last);
    }
  }

  lemma SolidEnd(s: string)
    requires Solid(s)
    ensures SplitComplete(s) == [s]
  {
    BoundaryIsNone(s, 0);
    StripUnique("", s, "");
    assert "" + s + "" == s;
  }

  lemma {:induction false} SolidLines(sentences: seq<string>)
    requires forall s :: s in sentences ==> Solid(s)
    ensures SplitComplete(Lines(sentences)) == sentences
  {
    if sentences == [] {
    } else if |sentences| == 1 {
      SolidEnd(sentences[0]);
    } else {
      SolidLine(sentences[0], Lines(sentences[1..]));
      SolidLines(sentences[1..]);
    }
  }

  /** Splitting the sentences of any text, one to a line, gives the same sentences back. */
  lemma SplitIsNormalForm(text: string)
    ensures SplitComplete(Lines(SplitComplete(text))) == SplitComplete(text)
  {
    SentencesAreSolid(text);
    SolidLines(SplitComplete(text));
  }

  // ---- What ends a sentence, from the text alone ----

  /** The unbroken word from `start` up to the character at `i`. */
  ghost predicate WordAt(buf: string, start: nat, i: nat)
    requires start <= i < |buf|
  {
    (start == 0 || IsSpace(buf[start - 1])) && forall k :: start <= k <= i ==> !IsSpace(buf[k])
  }

  /** The word that ends at `i` is one of the abbreviations, in whatever case. */
  ghost predicate Abbreviated(buf: string, i: nat)
    requires i < |buf|
  {
    exists start: nat :: start <= i && WordAt(buf, start, i) && Lower(buf[start..i + 1]) in {
      "mr.", "mrs.", "ms.", "dr.", "prof.", "sr.", "jr.", "st.", "vs.", "etc.", "e.g.", "i.e.",
      "a.m.", "p.m.", "u.s.", "u.k.", "no.", "fig.", "approx.", "dept.", "gen.", "gov.", "inc.", "ltd."}
  }

  lemma WordIsUnique(buf: string, start: nat, i: nat)
    requires start <= i < |buf| && WordAt(buf, start, i)
    ensures start == WordStart(buf, i + 1)
  {
    var at := WordStart(buf, i + 1);
    assert (0 < at ==> IsSpace(buf[at - 1])) && (start == 0 || IsSpace(buf[start - 1]));
  }

  lemma AbbreviatedIff(buf: string, i: nat)
    requires i < |buf|
    ensures Abbreviated(buf, i) <==> FalseSplit(buf, i)
  {
    var at := WordStart(buf, i + 1);
    forall start: nat | start <= i && WordAt(buf, start, i) ensures start == at {
      WordIsUnique(buf, start, i);
    }
    if at == i + 1 {
      EmptyIsNoAbbreviation(buf, i);
    } else {
      assert WordAt(buf, at, i);
    }
  }

  lemma EmptyIsNoAbbreviation(buf: string, i: nat)
    requires i < |buf| && WordStart(buf, i + 1) == i + 1
    ensures !FalseSplit(buf, i)
  {
    assert Trailing(buf, i) == "" && Lower("") == "";
  }

  /**
   A cut is called for by a newline, just after it; or by a full stop, an exclamation or a question
   mark with whitespace behind it, closing quotes and brackets apart, unless it ends an abbreviation.
   */
  lemma CutMeans(buf: string, i: nat, cut: nat)
    requires i < |buf|
    ensures CutAt(buf, i) == Some(cut) <==>
      || (buf[i] == '\n' && cut == i + 1)
      || (&& buf[i] in ".!?" && i < cut < |buf| && IsSpace(buf[cut])
          && (forall k :: i < k < cut ==> buf[k] in "\"')]}\U{201D}\U{2019}")
          && !Abbreviated(buf, i))
  {
    AbbreviatedIff(buf, i);
    if buf[i] == '\n' {
      CharacterKinds('\n');
      assert buf[i] !in ".!?";
    } else if IsTerminator(buf[i]) {
      TerminatorCuts(buf, i);
      RunIsUnique(buf, i + 1, cut);
    }
  }

  /** The run of closers stops at the first character that is none, such as a space. */
  lemma RunIsUnique(buf: string, from: nat, e: nat)
    requires from <= |buf|
    ensures (from <= e < |buf| && IsSpace(buf[e]) && forall k :: from <= k < e ==> IsCloser(buf[k]))
       <==> (e == RunEnd(buf, from) && e < |buf| && IsSpace(buf[e]))
  {
    if from <= e < |buf| && IsSpace(buf[e]) {
      CharacterKinds(buf[e]);
    }
  }

  /** A text that ends as a sentence does, at `i`, quotes and brackets apart. */
  ghost predicate EndsAt(s: string, i: nat) {
    i < |s| && s[i] in ".!?" && forall k :: i < k < |s| ==> s[k] in "\"')]}\U{201D}\U{2019}"
  }

  /**
   With a space behind it, such a text is cut off where it ends exactly if the word there is no
   abbreviation, and is then the first sentence that comes out, whatever follows.
   */
  lemma SentenceEndsIff(s: string, i: nat, gap: char, rest: string)
    requires Solid(s) && EndsAt(s, i) && IsSpace(gap)
    ensures Boundary(s + [gap] + rest, 0) == Some(|s|) <==> !Abbreviated(s, i)
    ensures !Abbreviated(s, i) ==> Drain(s + [gap] + rest) == Preceded([s], Drain([gap] + rest))
  {
    var text := s + [gap] + rest;
    CutsOfEnding(text, s, i);
    if Abbreviated(s, i) {
      CutsLater(text, 0, s);
    } else {
      BoundaryIsFirst(text, 0, i);
      SentenceGoes(s, gap, rest);
    }
  }

  lemma SentenceGoes(s: string, gap: char, rest: string)
    requires Solid(s) && Boundary(s + [gap] + rest, 0) == Some(|s|)
    ensures Drain(s + [gap] + rest) == Preceded([s], Drain([gap] + rest))
  {
    Parted(s, gap, rest);
    SpokenAlone(s);
    DrainStep(s + [gap] + rest, |s|);
  }

  lemma Parted(s: string, gap: char, rest: string)
    ensures (s + [gap] + rest)[..|s|] == s && (s + [gap] + rest)[|s|..] == [gap] + rest
  {
  }

  lemma SpokenAlone(s: string)
    requires Solid(s)
    ensures Spoken(s) == [s]
  {
    SpokenTrimmed(s, "");
    assert s + "" == s;
  }

  lemma CutsOfEnding(text: string, s: string, i: nat)
    requires Solid(s) && EndsAt(s, i) && |s| < |text| && s <= text && IsSpace(text[|s|])
    ensures CutAt(text, i) == if Abbreviated(s, i) then None else Some(|s|)
    ensures forall j :: 0 <= j < |s| && j != i ==> CutAt(text, j) == None
  {
    assert Window(text, 0, s);
    CutOfEnding(text, s, i);
    AbbreviatedIff(s, i);
    forall j | 0 <= j < |s| && j != i ensures CutAt(text, j) == None {
      OnlyAtItsEnd(text, s, i, j);
    }
  }

  lemma CutOfEnding(text: string, s: string, i: nat)
    requires Window(text, 0, s) && EndsAt(s, i) && |s| < |text| && s <= text && IsSpace(text[|s|])
    ensures CutAt(text, i) == if FalseSplit(s, i) then None else Some(|s|)
  {
    ClosersFollow(text, s, i);
    RunReaches(text, i + 1, |s|);
    WindowTrailing(text, 0, s, i);
    TerminatorCuts(text, i);
  }

  lemma RunReaches(text: string, from: nat, e: nat)
    requires from <= e < |text| && IsSpace(text[e]) && forall k :: from <= k < e ==> IsCloser(text[k])
    ensures RunEnd(text, from) == e
  {
    RunIsUnique(text, from, e);
  }

  lemma ClosersFollow(text: string, s: string, i: nat)
    requires EndsAt(s, i) && s <= text
    ensures text[i] == s[i] && IsTerminator(text[i]) && text[i] != '\n'
    ensures forall k :: i < k < |s| ==> IsCloser(text[k])
  {
  }

  lemma OnlyAtItsEnd(text: string, s: string, i: nat, j: nat)
    requires Solid(s) && EndsAt(s, i) && Window(text, 0, s) && j < |s| && j != i
    ensures CutAt(text, j) == None
  {
    CharacterKinds(s[i]);
    CharacterKinds(s[j]);
    WindowCut(text, 0, s, j);
    assert CutAt(s, j) == None;
    assert j < i ==> RunEnd(s, j + 1) <= i;
    assert j > i ==> IsCloser(s[j]);
  }

  lemma {:induction false} CutsLater(text: string, from: nat, s: string)
    requires from <= |s| <= |text| && forall j :: 0 <= j < |s| ==> CutAt(text, j) == None
    ensures Boundary(text, from) != Some(|s|)
    decreases |s| - from
  {
    if from < |s| {
      CutsLater(text, from + 1, s);
    }
  }

  /** A full stop ends a sentence, and the one of an abbreviation does not. */
  lemma StopsAndTitles()
    ensures SplitComplete("Hi. Yo") == ["Hi.", "Yo"]
    ensures SplitComplete("Hi Dr. Yo") == ["Hi Dr. Yo"]
  {
    ShortSentence();
    TitleStays();
  }

  lemma NoneShort(w: string)
    requires |w| == 3 && w[0] == 'h'
    ensures w !in ABBREVIATIONS
  {
  }

  lemma ShortSentence()
    ensures SplitComplete("Hi. Yo") == ["Hi.", "Yo"]
  {
    HiEnds("Hi.");
    YoStays(" Yo");
    assert [' '] + "Yo" == " Yo";
    TwoSentences("Hi.", 2, ' ', "Yo", "Yo");
    assert "Hi." + [' '] + "Yo" == "Hi. Yo";
  }

  lemma TwoSentences(s: string, i: nat, gap: char, rest: string, last: string)
    requires Solid(s) && EndsAt(s, i) && IsSpace(gap) && !Abbreviated(s, i)
    requires Drain([gap] + rest) == Drained([], [gap] + rest) && Spoken([gap] + rest) == [last]
    ensures SplitComplete(s + [gap] + rest) == [s, last]
  {
    SentenceEndsIff(s, i, gap, rest);
    assert [s] + [] + [last] == [s, last];
  }

  lemma HiEnds(s: string)
    requires s == "Hi."
    ensures Solid(s) && EndsAt(s, 2) && !Abbreviated(s, 2)
  {
    NoneShort(Lower(s));
    AbbreviatedIff(s, 2);
    WordIsUnique(s, 0, 2);
    assert s[0..3] == s;
    NoStopsBut(s, 2);
  }

  lemma YoStays(rest: string)
    requires rest == " Yo"
    ensures Drain(rest) == Drained([], rest) && Spoken(rest) == ["Yo"]
  {
    NoStops(rest);
    StripUnique(" ", "Yo", "");
    assert " " + "Yo" + "" == rest;
  }

  lemma TitleStays()
    ensures SplitComplete("Hi Dr. Yo") == ["Hi Dr. Yo"]
  {
    var s := "Hi Dr. Yo";
    assert s[3..6] == "Dr." && WordAt(s, 3, 5);
    assert Lower("Dr.") == "dr.";
    assert Abbreviated(s, 5);
    NoStopsBut(s, 5);
    SolidEnd(s);
  }

  lemma NoStopsBut(s: string, i: nat)
    requires s != "" && Trimmed(s) && i < |s| && forall k :: 0 <= k < |s| && k != i ==> s[k] != '\n' && s[k] !in ".!?"
    requires s[i] != '\n' && (Abbreviated(s, i) || i == |s| - 1)
    ensures Solid(s)
  {
    forall k | 0 <= k < |s| ensures CutAt(s, k) == None {
      AbbreviatedIff(s, k);
    }
  }

  lemma NoStops(s: string)
    requires forall i :: 0 <= i < |s| ==> s[i] != '\n' && s[i] !in ".!?"
    ensures Drain(s) == Drained([], s)
  {
    BoundaryIsNone(s, 0);
  }
}
