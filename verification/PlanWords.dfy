/**
 What the facts say after a consolidation plan: whose words `_consolidate` of
 `app/maintenance.py` rewrites, and to what, for every plan, batch, cap and store.
 */
module PlanWords {
  import opened Consolidation
  import opened FactStore
  import opened PlanOutcome
  import opened Text
  import opened Wrappers

  /** The `i`-th merge is looked at: nothing before it used up the cap or ended the pass. */
  ghost predicate Reached(t: Table, batch: Batch, merges: seq<Merge>, cap: int, i: nat)
    requires i <= |merges|
  {
    RoomAfter(t, batch, merges[..i], cap) > 0 && Halt !in Blows(batch, merges[..i])
  }

  lemma ReachedIff(t: Table, batch: Batch, merges: seq<Merge>, cap: int, now: real, i: nat)
    requires i <= |merges|
    ensures Reached(t, batch, merges, cap, i) <==> !Stopped(AfterMerges(FRESH.(t := t), batch, merges[..i], cap, now), cap)
  {
    MergesLeave(t, batch, merges[..i], cap, now);
  }

  /** The merge gives its keeper `x` new words: its own, or else the batch's, stripped; never none, and never the batch's as they are. */
  ghost predicate Says(batch: Batch, m: Merge, x: nat, words: string) {
    && m.Merge? && m.keep == Id(x) && x in batch && words != "" && words != batch[x].content
    && (m.content != "" ==> words == Strip(m.content))
    && (m.content == "" ==> words == Strip(batch[x].content))
  }

  ghost predicate Silent(batch: Batch, m: Merge, x: nat) {
    forall words :: !Says(batch, m, x, words)
  }

  // ---- One step ----

  lemma {:induction false} DropsKeepWords(p: Pass, batch: Batch, keep: nat, drops: seq<Handle>, cap: int, now: real, x: nat)
    requires x in p.t.rows && keep in batch
    ensures x in AfterDrops(p, batch, keep, drops, cap, now).t.rows
    ensures AfterDrops(p, batch, keep, drops, cap, now).t.rows[x].content == p.t.rows[x].content
    decreases |drops|
  {
    if drops != [] && !Stopped(p, cap) {
      DropsKeepWords(AfterDrop(p, batch, keep, drops[0], now), batch, keep, drops[1..], cap, now, x);
    }
  }

  lemma MergeSays(p: Pass, batch: Batch, m: Merge, cap: int, now: real, x: nat)
    requires x in p.t.rows
    ensures var q := AfterMerge(p, batch, m, cap, now);
      && x in q.t.rows
      && (forall words :: Says(batch, m, x, words) ==> q.t.rows[x].content == words)
      && (Silent(batch, m, x) ==> q.t.rows[x].content == p.t.rows[x].content)
  {
    if m.Merge? && m.keep.Id? && m.keep.n in batch {
      RewordedSays(p.t, batch, m, now, x);
      DropsKeepWords(p.(t := Reworded(p.t, batch, m, now)), batch, m.keep.n, m.drop, cap, now, x);
    }
  }

  lemma RewordedSays(t: Table, batch: Batch, m: Merge, now: real, x: nat)
    requires x in t.rows && m.Merge? && m.keep.Id? && m.keep.n in batch
    ensures x in Reworded(t, batch, m, now).rows
    ensures forall words :: Says(batch, m, x, words) ==> Reworded(t, batch, m, now).rows[x].content == words
    ensures Silent(batch, m, x) ==> Reworded(t, batch, m, now).rows[x].content == t.rows[x].content
  {
    var words := Wording(m, batch[m.keep.n]);
    StripTwice(if m.content != "" then m.content else batch[m.keep.n].content);
    if words != "" && words != batch[m.keep.n].content && m.keep.n == x {
      assert Says(batch, m, x, words);
    }
  }

  lemma {:induction false} CorrectionsKeepWords(p: Pass, batch: Batch, cs: seq<Correction>, cap: int, now: real, x: nat)
    requires Stands(p.t, batch, x)
    ensures x in AfterCorrections(p, batch, cs, cap, now).t.rows
    ensures AfterCorrections(p, batch, cs, cap, now).t.rows[x].content == p.t.rows[x].content
    decreases |cs|
  {
    if cs != [] && !Stopped(p, cap) {
      CorrectionStep(p, batch, cs[0], now, x);
      if Corrects(batch, cs[0]) {
        var was := cs[0].was.n;
        LinkedRows(p.t, was, Strip(cs[0].content), batch[was].tier, batch[was].confidence, now);
      }
      CorrectionsKeepWords(AfterCorrection(p, batch, cs[0], now), batch, cs[1..], cap, now, x);
    }
  }

  // ---- All the merges ----

  lemma {:induction false} MergesSnoc(p: Pass, batch: Batch, merges: seq<Merge>, m: Merge, cap: int, now: real)
    ensures var q := AfterMerges(p, batch, merges, cap, now);
      AfterMerges(p, batch, merges + [m], cap, now) == if Stopped(q, cap) then q else AfterMerge(q, batch, m, cap, now)
    decreases |merges|
  {
    if merges == [] {
      assert [m][1..] == [] && merges + [m] == [m];
    } else if !Stopped(p, cap) {
      assert (merges + [m])[1..] == merges[1..] + [m];
      MergesSnoc(AfterMerge(p, batch, merges[0], cap, now), batch, merges[1..], m, cap, now);
    }
  }

  /** After the first `n` merges: the words of the last reached that had any for `x`, or those it had. */
  lemma {:induction false} MergesSay(t: Table, batch: Batch, merges: seq<Merge>, cap: int, now: real, x: nat, from: nat, n: nat, words: string)
    requires from <= n <= |merges| && x in t.rows
    requires x in AfterMerges(FRESH.(t := t), batch, merges[..from], cap, now).t.rows
    requires AfterMerges(FRESH.(t := t), batch, merges[..from], cap, now).t.rows[x].content == words
    requires forall j :: from <= j < n && Reached(t, batch, merges, cap, j) ==> Silent(batch, merges[j], x)
    ensures x in AfterMerges(FRESH.(t := t), batch, merges[..n], cap, now).t.rows
    ensures AfterMerges(FRESH.(t := t), batch, merges[..n], cap, now).t.rows[x].content == words
    decreases n
  {
    if from < n {
      MergesSay(t, batch, merges, cap, now, x, from, n - 1, words);
      OneMerge(t, batch, merges, cap, now, n - 1);
      ReachedIff(t, batch, merges, cap, now, n - 1);
      MergeSays(AfterMerges(FRESH.(t := t), batch, merges[..n - 1], cap, now), batch, merges[n - 1], cap, now, x);
    }
  }

  lemma OneMerge(t: Table, batch: Batch, merges: seq<Merge>, cap: int, now: real, i: nat)
    requires i < |merges|
    ensures var q := AfterMerges(FRESH.(t := t), batch, merges[..i], cap, now);
      AfterMerges(FRESH.(t := t), batch, merges[..i + 1], cap, now)
        == if Stopped(q, cap) then q else AfterMerge(q, batch, merges[i], cap, now)
  {
    assert merges[..i + 1] == merges[..i] + [merges[i]];
    MergesSnoc(FRESH.(t := t), batch, merges[..i], merges[i], cap, now);
  }

  lemma PlanKeepsWords(t: Table, batch: Batch, merges: seq<Merge>, corrections: Listing<Correction>, cap: int, now: real, x: nat)
    requires Stands(t, batch, x) && 2 <= |batch|
    ensures var p, q := AfterMerges(FRESH.(t := t), batch, merges, cap, now),
                        AfterPlan(t, batch, Plan(Items(merges), corrections), cap, now);
      x in p.t.rows && x in q.t.rows && q.t.rows[x].content == p.t.rows[x].content
  {
    var p := AfterMerges(FRESH.(t := t), batch, merges, cap, now);
    MergesKeepStanding(FRESH.(t := t), batch, merges, cap, now, x);
    if !p.raised && corrections.Items? {
      CorrectionsKeepWords(p, batch, corrections.items, cap, now, x);
    }
  }

  // ---- The two theorems ----

  /**
   A keeper says in the end exactly what the last merge reached that had words for it gave it:
   the merged text, stripped, where there is one.
   */
  lemma KeeperSays(t: Table, batch: Batch, merges: seq<Merge>, corrections: Listing<Correction>, cap: int, now: real,
                   x: nat, i: nat, words: string)
    requires Stands(t, batch, x) && 2 <= |batch|
    requires i < |merges| && Reached(t, batch, merges, cap, i) && Says(batch, merges[i], x, words)
    requires forall j :: i < j < |merges| && Reached(t, batch, merges, cap, j) ==> Silent(batch, merges[j], x)
    ensures var q := AfterPlan(t, batch, Plan(Items(merges), corrections), cap, now);
      x in q.t.rows && q.t.rows[x].content == words
  {
    ReachedIff(t, batch, merges, cap, now, i);
    MergesKeepStanding(FRESH.(t := t), batch, merges[..i], cap, now, x);
    OneMerge(t, batch, merges, cap, now, i);
    MergeSays(AfterMerges(FRESH.(t := t), batch, merges[..i], cap, now), batch, merges[i], cap, now, x);
    MergesSay(t, batch, merges, cap, now, x, i + 1, |merges|, words);
    assert merges[..|merges|] == merges;
    PlanKeepsWords(t, batch, merges, corrections, cap, now, x);
  }

  /** And any other fact, dropped and corrected ones included, still says what it said. */
  lemma OthersKeepTheirWords(t: Table, batch: Batch, merges: seq<Merge>, corrections: Listing<Correction>, cap: int, now: real, x: nat)
    requires Stands(t, batch, x) && 2 <= |batch|
    requires forall j :: 0 <= j < |merges| && Reached(t, batch, merges, cap, j) ==> Silent(batch, merges[j], x)
    ensures var q := AfterPlan(t, batch, Plan(Items(merges), corrections), cap, now);
      x in q.t.rows && q.t.rows[x].content == t.rows[x].content
  {
    MergesSay(t, batch, merges, cap, now, x, 0, |merges|, t.rows[x].content);
    assert merges[..|merges|] == merges;
    PlanKeepsWords(t, batch, merges, corrections, cap, now, x);
  }

  /** The ordinary case: two facts told as one. The keeper takes the merged text and the other is forgotten. */
  lemma MergedTextIsKept(t: Table, batch: Batch, cap: int, now: real, a: nat, b: nat, text: string)
    requires Stands(t, batch, a) && Stands(t, batch, b) && a in batch && b in batch && a != b && 0 < cap
    requires t.rows[a].status == t.rows[b].status == Active && batch[a].source == batch[b].source == Extracted
    requires Strip(text) != "" && Strip(text) != batch[a].content
    ensures var q := AfterPlan(t, batch, Plan(Items([Merge(Id(a), text, [Id(b)])]), Items([])), cap, now).t;
      && a in q.rows && q.rows[a].status == Active && q.rows[a].content == Strip(text)
      && b in q.rows && q.rows[b].status == Forgotten && q.rows[b].content == t.rows[b].content
  {
    var m := Merge(Id(a), text, [Id(b)]);
    TwoAtLeast(batch, a, b);
    assert [m][..0] == [] && Blows(batch, []) == [] && Struck(ActiveIds(t), []) == {};
    assert Says(batch, m, a, Strip(text)) by {
      if text == "" { StripUnique("", "", ""); }
    }
    KeeperSays(t, batch, [m], Items([]), cap, now, a, 0, Strip(text));
    OthersKeepTheirWords(t, batch, [m], Items([]), cap, now, b);
    PairIsSettled(t, batch, m, cap, now, a, b);
  }

  lemma TwoAtLeast(batch: Batch, a: nat, b: nat)
    requires a in batch && b in batch && a != b
    ensures 2 <= |batch|
  {
    assert |{a, b}| <= |batch.Keys| by {
      var rest := batch.Keys - {a, b};
      assert batch.Keys == {a, b} + rest;
    }
  }

  lemma PairIsSettled(t: Table, batch: Batch, m: Merge, cap: int, now: real, a: nat, b: nat)
    requires a in batch && b in batch && a != b && 0 < cap && m.Merge? && m.keep == Id(a) && m.drop == [Id(b)]
    requires a in t.rows && b in t.rows && t.rows[a].status == t.rows[b].status == Active && 2 <= |batch|
    requires batch[a].source == batch[b].source == Extracted
    ensures var q := AfterPlan(t, batch, Plan(Items([m]), Items([])), cap, now).t;
      && a in q.rows && q.rows[a].status == Active
      && b in q.rows && q.rows[b].status == Forgotten
  {
    var start := FRESH.(t := t);
    var p := start.(t := Reworded(t, batch, m, now));
    assert [m][1..] == [] && [Id(b)][1..] == [];
    var q := AfterDrop(p, batch, a, Id(b), now);
    assert AfterDrops(q, batch, a, [], cap, now) == q;
    assert AfterDrops(p, batch, a, [Id(b)], cap, now) == q;
    assert AfterMerges(q, batch, [], cap, now) == q;
    assert AfterMerges(start, batch, [m], cap, now) == q;
    assert AfterCorrections(q, batch, [], cap, now) == q;
  }
}
