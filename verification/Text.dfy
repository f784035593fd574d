/**
 The parts of Python's `str` that the modelled files lean on: `isspace`, `strip` and
 `lower`. Whitespace is the full Unicode list; lower-casing is exact for every question
 asked of it here, which is whether the lowered text is a given ASCII string (the only
 non-ASCII character whose lower case is a lone ASCII one is the Kelvin sign).
 */
module Text {

  predicate IsSpace(c: char) {
    || '\t' <= c <= '\r'
    || '\U{1C}' <= c <= ' '
    || c == '\U{85}' || c == '\U{A0}' || c == '\U{1680}'
    || '\U{2000}' <= c <= '\U{200A}'
    || c == '\U{2028}' || c == '\U{2029}' || c == '\U{202F}' || c == '\U{205F}' || c == '\U{3000}'
  }

  /** The characters for which Python's `isspace` holds, one by one. */
  lemma SpacesAre(c: char)
    ensures IsSpace(c) <==>
      || c in "\t\n\U{B}\U{C}\r\U{1C}\U{1D}\U{1E}\U{1F} \U{85}\U{A0}\U{1680}"
      || c in "\U{2000}\U{2001}\U{2002}\U{2003}\U{2004}\U{2005}\U{2006}\U{2007}\U{2008}\U{2009}\U{200A}"
      || c in "\U{2028}\U{2029}\U{202F}\U{205F}\U{3000}"
  {
  }

  ghost predicate Blank(s: string) {
    forall i :: 0 <= i < |s| ==> IsSpace(s[i])
  }

  ghost predicate Trimmed(s: string) {
    s != "" ==> !IsSpace(s[0]) && !IsSpace(s[|s| - 1])
  }

  function TrimLeft(s: string): string {
    if s != "" && IsSpace(s[0]) then TrimLeft(s[1..]) else s
  }

  function TrimRight(s: string): string {
    if s != "" && IsSpace(s[|s| - 1]) then TrimRight(s[..|s| - 1]) else s
  }

  function Strip(s: string): string {
    TrimRight(TrimLeft(s))
  }

  lemma {:induction false} TrimLeftDrops(s: string) returns (l: string)
    ensures s == l + TrimLeft(s) && Blank(l)
    ensures TrimLeft(s) != "" ==> !IsSpace(TrimLeft(s)[0])
  {
    if s != "" && IsSpace(s[0]) {
      l := TrimLeftDrops(s[1..]);
      l := [s[0]] + l;
    } else {
      l := "";
    }
  }

  lemma {:induction false} TrimRightDrops(s: string) returns (r: string)
    ensures s == TrimRight(s) + r && Blank(r)
    ensures TrimRight(s) != "" ==> !IsSpace(TrimRight(s)[|TrimRight(s)| - 1])
  {
    if s != "" && IsSpace(s[|s| - 1]) {
      r := TrimRightDrops(s[..|s| - 1]);
      r := r + [s[|s| - 1]];
    } else {
      r := "";
    }
  }

  /** What `strip` takes away is blank on both sides, and what it leaves is trimmed. */
  lemma StripCutsBlanks(s: string) returns (l: string, r: string)
    ensures s == l + Strip(s) + r && Blank(l) && Blank(r) && Trimmed(Strip(s))
  {
    l := TrimLeftDrops(s);
    r := TrimRightDrops(TrimLeft(s));
    assert Strip(s) != "" ==> Strip(s)[0] == TrimLeft(s)[0];
  }

  lemma {:induction false} TrimLeftBlank(l: string, s: string)
    requires Blank(l) && (s != "" ==> !IsSpace(s[0]))
    ensures TrimLeft(l + s) == s
  {
    if l == "" {
      assert l + s == s;
    } else {
      assert (l + s)[1..] == l[1..] + s;
      TrimLeftBlank(l[1..], s);
    }
  }

  lemma {:induction false} TrimRightBlank(s: string, r: string)
    requires Blank(r) && (s != "" ==> !IsSpace(s[|s| - 1]))
    ensures TrimRight(s + r) == s
  {
    if r == "" {
      assert s + r == s;
    } else {
      assert (s + r)[..|s + r| - 1] == s + r[..|r| - 1];
      TrimRightBlank(s, r[..|r| - 1]);
    }
  }

  /** `strip` is determined by that: a trimmed text between blanks is what it returns. */
  lemma StripUnique(l: string, s: string, r: string)
    requires Blank(l) && Blank(r) && Trimmed(s)
    ensures Strip(l + s + r) == s
  {
    if s == "" {
      TrimLeftBlank(l + r, "");
      assert l + s + r == (l + r) + "";
    } else {
      assert l + s + r == l + (s + r);
      TrimLeftBlank(l, s + r);
      TrimRightBlank(s, r);
    }
  }

  lemma StripTwice(s: string)
    ensures Strip(Strip(s)) == Strip(s)
  {
    var _, _ := StripCutsBlanks(s);
    StripUnique("", Strip(s), "");
    assert "" + Strip(s) + "" == Strip(s);
  }

  /** The text with every whitespace character deleted. */
  function Dense(s: string): string {
    if s == "" then "" else (if IsSpace(s[0]) then "" else [s[0]]) + Dense(s[1..])
  }

  lemma {:induction false} DenseConcat(a: string, b: string)
    ensures Dense(a + b) == Dense(a) + Dense(b)
  {
    if a == "" {
      assert a + b == b;
    } else {
      assert (a + b)[1..] == a[1..] + b;
      DenseConcat(a[1..], b);
    }
  }

  lemma {:induction false} DenseBlank(s: string)
    requires Blank(s)
    ensures Dense(s) == ""
  {
    if s != "" {
      DenseBlank(s[1..]);
    }
  }

  lemma DenseStrip(s: string)
    ensures Dense(Strip(s)) == Dense(s)
  {
    var l, r := StripCutsBlanks(s);
    DenseConcat(l + Strip(s), r);
    DenseConcat(l, Strip(s));
    DenseBlank(l);
    DenseBlank(r);
  }

  function Concat(parts: seq<string>): string {
    if parts == [] then "" else parts[0] + Concat(parts[1..])
  }

  lemma {:induction false} ConcatAppend(a: seq<string>, b: seq<string>)
    ensures Concat(a + b) == Concat(a) + Concat(b)
  {
    if a == [] {
      assert a + b == b;
    } else {
      assert (a + b)[1..] == a[1..] + b;
      ConcatAppend(a[1..], b);
    }
  }

  function LowerChar(c: char): char {
    if 'A' <= c <= 'Z' then c - 'A' + 'a'
    else if c == '\U{212A}' then 'k'
    else c
  }

  lemma LettersAreLowered(i: nat)
    requires i < 26
    ensures LowerChar("ABCDEFGHIJKLMNOPQRSTUVWXYZ"[i]) == "abcdefghijklmnopqrstuvwxyz"[i]
    ensures LowerChar("abcdefghijklmnopqrstuvwxyz"[i]) == "abcdefghijklmnopqrstuvwxyz"[i]
  {
  }

  function Lower(s: string): (t: string)
    ensures |t| == |s|
    ensures forall i :: 0 <= i < |s| ==> t[i] == LowerChar(s[i])
  {
    seq(|s|, i requires 0 <= i < |s| => LowerChar(s[i]))
  }
}
