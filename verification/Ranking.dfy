/**
 `_score` and `rank_facts` of `app/memory/context.py`, over real arithmetic. The logarithm
 of the use count and the half-life curve are parameters, known only by their bounds.
 */
module Ranking {
  import opened Collections
  import opened Text
  import opened Wrappers

  datatype Tier = Durable | Short | Session | Unknown

  datatype Fact = Fact(id: int, content: string, tier: Tier, confidence: real, uses: nat, ageDays: real)

  const W_RELEVANCE := 1.0
  const W_TIER := 0.35
  const W_CONFIDENCE := 0.20
  const W_USE := 0.25
  const W_RECENCY := 0.30
  const MATCH_FLOOR := 0.8

  /** `log1p(n) / log1p(10)` and `0.5 ** (days / 30)`. */
  datatype Curves = Curves(use: nat -> real, fade: real -> real)

  ghost predicate Bounded(c: Curves) {
    && (forall n :: 0.0 <= c.use(n))
    && (forall d :: 0.0 <= d ==> 0.0 < c.fade(d) <= 1.0)
  }

  function Least(a: real, b: real): real { if a < b then a else b }

  function Greatest(a: real, b: real): real { if a < b then b else a }

  function TierWeight(t: Tier): real {
    match t
    case Durable => 1.0
    case Short => 0.8
    case Session => 0.6
    case Unknown => 0.8
  }

  function Score(c: Curves, f: Fact, relevance: real): real {
    W_RELEVANCE * relevance
    + W_TIER * TierWeight(f.tier)
    + W_CONFIDENCE * Least(1.0, Greatest(0.0, f.confidence))
    + W_USE * Least(1.0, c.use(f.uses))
    + W_RECENCY * c.fade(Greatest(0.0, f.ageDays))
  }

  /** What a fact earns for coming `index`-th of `span` matches. */
  function Relevance(index: nat, span: nat): real
    requires index < span
  {
    MATCH_FLOOR + (1.0 - MATCH_FLOOR) * (1.0 - index as real / span as real)
  }

  // ---- The bound ----

  lemma UnmatchedAtMost(c: Curves, f: Fact)
    requires Bounded(c)
    ensures Score(c, f, 0.0) <= 1.10
  {
    assert 0.0 < c.fade(Greatest(0.0, f.ageDays)) <= 1.0;
    assert Least(1.0, c.use(f.uses)) <= 1.0;
  }

  lemma MatchedMoreThan(c: Curves, f: Fact, relevance: real)
    requires Bounded(c)
    ensures Score(c, f, relevance) > relevance + W_TIER * TierWeight(f.tier)
  {
    assert 0.0 < c.fade(Greatest(0.0, f.ageDays));
    assert 0.0 <= Least(1.0, c.use(f.uses));
  }

  /** How far each signal can carry a fact, all else being equal, and that more of any never counts against it. */
  lemma EachSignalCounts(c: Curves, f: Fact, relevance: real, d: real)
    requires Bounded(c)
    ensures Score(c, f, relevance + d) - Score(c, f, relevance) == d
    ensures Score(c, f.(tier := Durable), relevance) - Score(c, f.(tier := Short), relevance) == 0.07
    ensures Score(c, f.(tier := Short), relevance) - Score(c, f.(tier := Session), relevance) == 0.07
    ensures Score(c, f.(tier := Unknown), relevance) == Score(c, f.(tier := Short), relevance)
    ensures 0.0 <= f.confidence && 0.0 <= d && f.confidence + d <= 1.0
        ==> Score(c, f.(confidence := f.confidence + d), relevance) - Score(c, f, relevance) == 0.2 * d
    ensures f.confidence <= 0.0 ==> Score(c, f, relevance) == Score(c, f.(confidence := 0.0), relevance)
    ensures f.confidence >= 1.0 ==> Score(c, f, relevance) == Score(c, f.(confidence := 1.0), relevance)
  {
  }

  lemma UseAndAgeCount(c: Curves, f: Fact, relevance: real, uses: nat, days: real)
    requires Bounded(c) && 0.0 <= f.ageDays && 0.0 <= days
    ensures c.use(uses) <= 1.0 && c.use(f.uses) <= 1.0
        ==> Score(c, f.(uses := uses), relevance) - Score(c, f, relevance) == 0.25 * (c.use(uses) - c.use(f.uses))
    ensures c.use(f.uses) >= 1.0 && c.use(uses) >= 1.0 ==> Score(c, f.(uses := uses), relevance) == Score(c, f, relevance)
    ensures Score(c, f.(ageDays := days), relevance) - Score(c, f, relevance) == 0.3 * (c.fade(days) - c.fade(f.ageDays))
    ensures Score(c, f.(ageDays := -days), relevance) == Score(c, f.(ageDays := 0.0), relevance)
  {
  }

  lemma RelevanceRange(index: nat, span: nat)
    requires index < span
    ensures MATCH_FLOOR < Relevance(index, span) <= 1.0
    ensures index == 0 ==> Relevance(index, span) == 1.0
  {
    assert 0.0 <= index as real / span as real < 1.0;
  }

  /** The score that no fact without a match can exceed. */
  const BAR: real := W_TIER + W_CONFIDENCE + W_USE + W_RECENCY

  /** Placement and tier alone lift a match of this tier to the bar. */
  predicate Clears(tier: Tier, index: nat, span: nat)
    requires index < span
  {
    Relevance(index, span) + W_TIER * TierWeight(tier) >= BAR
  }

  /**
   Every durable match clears the bar, a short-term one with at most nine tenths of the matches
   ahead of it, a session one with at most 55 in 100.
   */
  lemma ClearsWhen(tier: Tier, index: nat, span: nat)
    requires index < span
    ensures Clears(tier, index, span) <==>
              match tier
              case Durable => true
              case Session => 20 * index <= 11 * span
              case _ => 10 * index <= 9 * span
  {
    var place := index as real / span as real;
    RelevanceRange(index, span);
    assert place * span as real == index as real;
    assert place <= 0.9 <==> 10 * index <= 9 * span by { Share(place, 0.9, index, span); }
    assert place <= 0.55 <==> 20 * index <= 11 * span by { Share(place, 0.55, index, span); }
  }

  lemma Share(place: real, part: real, index: nat, span: nat)
    requires span > 0 && place * span as real == index as real
    ensures place <= part <==> index as real <= part * span as real
  {
    if place <= part {
      assert place * span as real <= part * span as real;
    } else {
      assert place * span as real > part * span as real;
    }
  }

  /** A match that clears the bar beats every fact that did not match. */
  lemma ClearMatchOutscores(c: Curves, f: Fact, index: nat, span: nat, other: Fact)
    requires Bounded(c) && index < span && Clears(f.tier, index, span)
    ensures Score(c, f, Relevance(index, span)) > Score(c, other, 0.0)
  {
    MatchedMoreThan(c, f, Relevance(index, span));
    UnmatchedAtMost(c, other);
  }

  /** What the two curves of the source reach: no use and full use, no age, and as little as one likes. */
  ghost predicate Reaching(c: Curves) {
    && c.use(0) == 0.0 && c.use(10) == 1.0 && c.fade(0.0) == 1.0
    && forall e :: e > 0.0 ==> FadesBelow(c, e)
  }

  ghost predicate FadesBelow(c: Curves, e: real) { exists d :: 0.0 <= d && c.fade(d) < e }

  /** Below the bar some fact of that tier, matched at that place, loses to one that did not match, whatever the two say. */
  lemma LaterMatchMayLose(c: Curves, tier: Tier, index: nat, span: nat, text: string, standing: string) returns (f: Fact, other: Fact)
    requires Bounded(c) && Reaching(c) && index < span && !Clears(tier, index, span)
    ensures f.tier == tier && f.id == 1 && f.content == text
    ensures other.tier == Durable && other.id == 2 && other.content == standing
    ensures Score(c, f, Relevance(index, span)) < Score(c, other, 0.0)
  {
    var lacking := BAR - Relevance(index, span) - W_TIER * TierWeight(tier);
    assert FadesBelow(c, lacking);
    var age :| 0.0 <= age && c.fade(age) < lacking;
    f := Fact(1, text, tier, 0.0, 0, age);
    other := Fact(2, standing, Durable, 1.0, 10, 0.0);
    assert 0.0 < c.fade(age);
  }

  /** So a match is safe from every unmatched fact exactly when it clears the bar. */
  lemma OutscoresIff(c: Curves, tier: Tier, index: nat, span: nat, text: string, standing: string)
    requires Bounded(c) && Reaching(c) && index < span
    ensures (forall f: Fact, other: Fact :: f.tier == tier && f.content == text && other.content == standing
               ==> Score(c, f, Relevance(index, span)) > Score(c, other, 0.0))
            <==> Clears(tier, index, span)
  {
    if Clears(tier, index, span) {
      forall f: Fact, other: Fact | f.tier == tier ensures Score(c, f, Relevance(index, span)) > Score(c, other, 0.0) {
        ClearMatchOutscores(c, f, index, span, other);
      }
    } else {
      var f, other := LaterMatchMayLose(c, tier, index, span, text, standing);
    }
  }

  /** In particular the best match, and every matched durable fact, beats every fact that did not match. */
  lemma MatchOutscores(c: Curves, f: Fact, index: nat, span: nat, other: Fact)
    requires Bounded(c) && index < span && (index == 0 || f.tier == Durable)
    ensures Score(c, f, Relevance(index, span)) > Score(c, other, 0.0)
  {
    ClearsWhen(f.tier, index, span);
    ClearMatchOutscores(c, f, index, span, other);
  }

  // ---- The candidates, the ranking and the cut ----

  datatype Candidate = Candidate(fact: Fact, relevance: real)

  ghost predicate DistinctFacts(facts: seq<Fact>) {
    forall i, j :: 0 <= i < j < |facts| ==> facts[i].id != facts[j].id
  }

  ghost predicate Distinct(cs: seq<Candidate>) {
    forall i, j :: 0 <= i < j < |cs| ==> cs[i].fact.id != cs[j].fact.id
  }

  predicate Lists(cs: seq<Candidate>, id: int) {
    exists i :: 0 <= i < |cs| && cs[i].fact.id == id
  }

  function Matches(found: seq<Fact>): (cs: seq<Candidate>)
    ensures |cs| == |found|
    ensures forall i :: 0 <= i < |found| ==> cs[i] == Candidate(found[i], Relevance(i, |found|))
  {
    seq(|found|, i requires 0 <= i < |found| => Candidate(found[i], Relevance(i, |found|)))
  }

  /** `setdefault`: facts not yet listed join with no relevance. */
  function Joined(cs: seq<Candidate>, facts: seq<Fact>): seq<Candidate>
    decreases |facts|
  {
    if facts == [] then cs
    else Joined(if Lists(cs, facts[0].id) then cs else cs + [Candidate(facts[0], 0.0)], facts[1..])
  }

  function Pool(found: seq<Fact>, always: seq<Fact>, recent: seq<Fact>): seq<Candidate> {
    var pool := Joined(Matches(found), always);
    if pool == [] then Joined([], recent) else pool
  }

  /** The sort key `(-score, -id)`: whether `a` ranks at or before `b`. */
  ghost predicate Before(c: Curves, a: Candidate, b: Candidate) {
    var x, y := Score(c, a.fact, a.relevance), Score(c, b.fact, b.relevance);
    x > y || (x == y && a.fact.id >= b.fact.id)
  }

  ghost predicate Ranked(c: Curves, cs: seq<Candidate>) {
    forall i, j :: 0 <= i < j < |cs| ==> Before(c, cs[i], cs[j])
  }

  function Insert(c: Curves, x: Candidate, cs: seq<Candidate>): seq<Candidate> {
    if cs == [] then [x]
    else
      var sx, sy := Score(c, x.fact, x.relevance), Score(c, cs[0].fact, cs[0].relevance);
      if sx > sy || (sx == sy && x.fact.id >= cs[0].fact.id) then [x] + cs
      else [cs[0]] + Insert(c, x, cs[1..])
  }

  function Sorted(c: Curves, cs: seq<Candidate>): seq<Candidate> {
    if cs == [] then [] else Insert(c, cs[0], Sorted(c, cs[1..]))
  }

  lemma {:induction false} InsertAdds(c: Curves, x: Candidate, cs: seq<Candidate>)
    ensures multiset(Insert(c, x, cs)) == multiset(cs) + multiset{x}
  {
    if cs != [] {
      assert cs == [cs[0]] + cs[1..];
      InsertAdds(c, x, cs[1..]);
    }
  }

  lemma {:induction false} InsertRanked(c: Curves, x: Candidate, cs: seq<Candidate>)
    requires Ranked(c, cs)
    ensures Ranked(c, Insert(c, x, cs))
  {
    if cs != [] {
      if !Before(c, x, cs[0]) {
        InsertRanked(c, x, cs[1..]);
        InsertAdds(c, x, cs[1..]);
        var rest := Insert(c, x, cs[1..]);
        forall j | 0 <= j < |rest| ensures Before(c, cs[0], rest[j]) {
          assert rest[j] in multiset(rest);
          assert rest[j] == x || rest[j] in cs[1..];
        }
      }
    }
  }

  lemma {:induction false} SortedRanks(c: Curves, cs: seq<Candidate>)
    ensures Ranked(c, Sorted(c, cs)) && multiset(Sorted(c, cs)) == multiset(cs)
  {
    if cs != [] {
      SortedRanks(c, cs[1..]);
      InsertRanked(c, cs[0], Sorted(c, cs[1..]));
      InsertAdds(c, cs[0], Sorted(c, cs[1..]));
      assert cs == [cs[0]] + cs[1..];
    }
  }

  lemma {:induction false} JoinedKeeps(cs: seq<Candidate>, facts: seq<Fact>)
    requires Distinct(cs)
    ensures Distinct(Joined(cs, facts)) && cs <= Joined(cs, facts)
    ensures forall k :: |cs| <= k < |Joined(cs, facts)| ==> Joined(cs, facts)[k].relevance == 0.0
    ensures forall f :: f in facts ==> Lists(Joined(cs, facts), f.id)
    decreases |facts|
  {
    if facts != [] {
      var next := if Lists(cs, facts[0].id) then cs else cs + [Candidate(facts[0], 0.0)];
      JoinedKeeps(next, facts[1..]);
      assert Lists(next, facts[0].id) by {
        if !Lists(cs, facts[0].id) { assert next[|cs|].fact.id == facts[0].id; }
      }
      var joined := Joined(cs, facts);
      var i :| 0 <= i < |next| && next[i].fact.id == facts[0].id;
      assert joined[i] == next[i];
      forall k | |cs| <= k < |joined| ensures joined[k].relevance == 0.0 {
        if k < |next| { assert joined[k] == next[k]; }
      }
    }
  }

  function Characters(facts: seq<Fact>): nat {
    if facts == [] then 0
    else Characters(facts[..|facts| - 1]) + |facts[|facts| - 1].content| + 1
  }

  function Facts(cs: seq<Candidate>): (fs: seq<Fact>)
    ensures |fs| == |cs| && forall i :: 0 <= i < |cs| ==> fs[i] == cs[i].fact
  {
    seq(|cs|, i requires 0 <= i < |cs| => cs[i].fact)
  }

  /** The texts one after another. */
  ghost function Words(facts: seq<Fact>): string {
    if facts == [] then "" else Words(facts[..|facts| - 1]) + facts[|facts| - 1].content
  }

  /** Each fact costs its text and one more character. */
  lemma {:induction false} CharactersAre(facts: seq<Fact>)
    ensures Characters(facts) == |Words(facts)| + |facts|
  {
    if facts != [] {
      CharactersAre(facts[..|facts| - 1]);
    }
  }

  lemma NextWords(ranking: seq<Fact>, n: nat)
    requires n < |ranking|
    ensures |Words(ranking[..n + 1])| == |Words(ranking[..n])| + |ranking[n].content|
  {
    assert ranking[..n + 1][..n] == ranking[..n];
  }

  /** Within the count cap, and within the character budget unless a lone fact overruns it. */
  ghost predicate Fits(chosen: seq<Fact>, limit: int, budget: int) {
    && |chosen| <= limit
    && (0 < budget && 1 < |chosen| ==> Characters(chosen) <= budget)
  }

  /** `chosen` is the longest opening of the ranking that fits. */
  ghost predicate LongestFit(chosen: seq<Fact>, ranking: seq<Fact>, limit: int, budget: int) {
    && chosen <= ranking && Fits(chosen, limit, budget)
    && (chosen < ranking ==> !Fits(ranking[..|chosen| + 1], limit, budget))
  }

  /** In characters: it stops short only at the count, or where the next fact would overrun the budget. */
  lemma LongestFitMeans(chosen: seq<Fact>, ranking: seq<Fact>, limit: int, budget: int)
    requires 0 < limit && chosen <= ranking
    ensures LongestFit(chosen, ranking, limit, budget) <==>
      && |chosen| <= limit && (ranking != [] ==> chosen != [])
      && (0 < budget && 1 < |chosen| ==> |Words(chosen)| + |chosen| <= budget)
      && (|chosen| < |ranking| ==> |chosen| == limit || 0 < budget < |Words(chosen)| + |chosen| + |ranking[|chosen|].content| + 1)
  {
    CharactersAre(chosen);
    assert ranking[..|chosen|] == chosen;
    if |chosen| < |ranking| {
      CharactersAre(ranking[..|chosen| + 1]);
      NextWords(ranking, |chosen|);
    }
  }

  method Cut(ranking: seq<Fact>, limit: int, budget: int) returns (chosen: seq<Fact>)
    requires 0 < limit
    ensures LongestFit(chosen, ranking, limit, budget)
    ensures ranking != [] ==> chosen != []
  {
    chosen := [];
    var used := 0;
    for n := 0 to |ranking|
      invariant chosen == ranking[..n] && used == Characters(chosen)
      invariant Fits(chosen, limit, budget)
    {
      assert ranking[..n + 1][..n] == ranking[..n];
      if |chosen| >= limit {
        return;
      }
      var cost := |ranking[n].content| + 1;
      assert Characters(ranking[..n + 1]) == used + cost;
      if budget > 0 && used + cost > budget && chosen != [] {
        return;
      }
      chosen := chosen + [ranking[n]];
      used := used + cost;
    }
  }

  /** `found` is what the index returned for the query and `always`, `recent` the other two reads. */
  method RankFacts(c: Curves, query: Option<string>, found: seq<Fact>, always: seq<Fact>,
                   recent: seq<Fact>, limit: int, budget: int) returns (chosen: seq<Fact>)
    ensures limit <= 0 ==> chosen == []
    ensures 0 < limit ==>
      var matched := if query == None || Strip(query.value) == "" then [] else found;
      LongestFit(chosen, Facts(Sorted(c, Pool(matched, always, recent))), limit, budget)
  {
    if limit <= 0 {
      return [];
    }
    var matched := if query == None || Strip(query.value) == "" then [] else found;
    var candidates := Joined(Matches(matched), always);
    if candidates == [] {
      candidates := Joined([], recent);
    }
    chosen := Cut(Facts(Sorted(c, candidates)), limit, budget);
  }

  /** The ranking lists each fact once, best first, and everything that was read is in it. */
  lemma RankingIsComplete(c: Curves, found: seq<Fact>, always: seq<Fact>, recent: seq<Fact>)
    requires DistinctFacts(found)
    ensures var ranking := Sorted(c, Pool(found, always, recent));
            && Distinct(ranking) && Ranked(c, ranking)
            && (forall i :: 0 <= i < |found| ==> Candidate(found[i], Relevance(i, |found|)) in ranking)
            && (forall f :: f in always ==> Lists(ranking, f.id))
            && (forall k :: 0 <= k < |ranking| ==> ranking[k].relevance == 0.0 || ranking[k] in Matches(found))
  {
    var pool := Pool(found, always, recent);
    var ranking := Sorted(c, pool);
    JoinedKeeps(Matches(found), always);
    JoinedKeeps([], recent);
    SortedRanks(c, pool);
    SameMembers(pool, ranking);
    DistinctSurvives(pool, ranking);
    forall i | 0 <= i < |found| ensures Candidate(found[i], Relevance(i, |found|)) in ranking {
      assert pool[i] == Matches(found)[i];
    }
    forall f | f in always ensures Lists(ranking, f.id) {
      assert Lists(pool, f.id);
      var i :| 0 <= i < |pool| && pool[i].fact.id == f.id;
      assert pool[i] in ranking;
    }
    forall k | 0 <= k < |ranking|
      ensures ranking[k].relevance == 0.0 || ranking[k] in Matches(found)
    {
      assert ranking[k] in pool;
      var i :| 0 <= i < |pool| && pool[i] == ranking[k];
      if i < |found| { assert pool[i] == Matches(found)[i]; }
    }
  }

  /** Best first, and of two that score the same the newer one. */
  lemma RankingIsOrdered(c: Curves, found: seq<Fact>, always: seq<Fact>, recent: seq<Fact>, i: nat, j: nat)
    requires DistinctFacts(found)
    ensures var ranking := Sorted(c, Pool(found, always, recent));
      i < j < |ranking| ==>
        var x, y := Score(c, ranking[i].fact, ranking[i].relevance), Score(c, ranking[j].fact, ranking[j].relevance);
        x > y || (x == y && ranking[i].fact.id > ranking[j].fact.id)
  {
    var ranking := Sorted(c, Pool(found, always, recent));
    RankingIsComplete(c, found, always, recent);
    assert i < j < |ranking| ==> Before(c, ranking[i], ranking[j]);
  }

  /** Nothing else is in it: a match, a standing fact, or, only when there is neither, a recent one; and then all of those. */
  lemma RankingIsRead(c: Curves, found: seq<Fact>, always: seq<Fact>, recent: seq<Fact>)
    requires DistinctFacts(found)
    ensures var ranking := Sorted(c, Pool(found, always, recent));
      && (found + always != [] ==> forall x :: x in ranking ==> x in Matches(found) || (x.fact in always && x.relevance == 0.0))
      && (found + always == [] ==> (forall x :: x in ranking ==> x.fact in recent && x.relevance == 0.0)
                                   && forall f :: f in recent ==> Lists(ranking, f.id))
  {
    var pool := Pool(found, always, recent);
    var ranking := Sorted(c, pool);
    SortedRanks(c, pool);
    SameMembers(pool, ranking);
    JoinedMembers(Matches(found), always);
    JoinedMembers([], recent);
    JoinedKeeps(Matches(found), always);
    JoinedKeeps([], recent);
    if found + always == [] {
      assert found == [] && always == [] && Matches(found) == [] && pool == Joined([], recent);
      forall f | f in recent ensures Lists(ranking, f.id) {
        assert Lists(pool, f.id);
        var i :| 0 <= i < |pool| && pool[i].fact.id == f.id;
        assert pool[i] in ranking;
      }
    } else {
      SomethingJoins(found, always);
    }
  }

  lemma {:induction false} JoinedMembers(cs: seq<Candidate>, facts: seq<Fact>)
    ensures forall x :: x in Joined(cs, facts) ==> x in cs || (x.fact in facts && x.relevance == 0.0)
    decreases |facts|
  {
    if facts != [] {
      JoinedMembers(if Lists(cs, facts[0].id) then cs else cs + [Candidate(facts[0], 0.0)], facts[1..]);
    }
  }

  lemma SomethingJoins(found: seq<Fact>, always: seq<Fact>)
    requires DistinctFacts(found) && found + always != []
    ensures Joined(Matches(found), always) != []
  {
    JoinedKeeps(Matches(found), always);
    if found == [] {
      assert always[0] in always;
    }
  }

  lemma DistinctSurvives(a: seq<Candidate>, b: seq<Candidate>)
    requires Distinct(a) && multiset(a) == multiset(b)
    ensures Distinct(b)
  {
    SameMembers(a, b);
    forall i, j | 0 <= i < j < |b| ensures b[i].fact.id != b[j].fact.id {
      assert b[i] in a && b[j] in a;
      Once(a, b[i]);
      if b[i] == b[j] { Twice(b, i, j); }
    }
  }

  lemma Twice<T>(s: seq<T>, i: nat, j: nat)
    requires i < j < |s| && s[i] == s[j]
    ensures multiset(s)[s[i]] >= 2
  {
    assert s == s[..j] + s[j..];
    assert s[i] in s[..j] && s[..j][i] == s[i];
    assert s[j..][0] == s[i] && s[i] in s[j..];
    assert multiset(s) == multiset(s[..j]) + multiset(s[j..]);
  }

  lemma {:induction false} Once(s: seq<Candidate>, x: Candidate)
    requires Distinct(s)
    ensures multiset(s)[x] <= 1
  {
    if s != [] {
      assert s == [s[0]] + s[1..];
      Once(s[1..], x);
      assert forall k :: 0 <= k < |s[1..]| ==> s[1..][k] == s[k + 1];
      assert s[0] !in s[1..];
    }
  }

  /** If anything matched, the first fact chosen is a match. */
  lemma FirstIsAMatch(c: Curves, found: seq<Fact>, always: seq<Fact>, recent: seq<Fact>)
    requires Bounded(c) && DistinctFacts(found) && found != []
    ensures var ranking := Sorted(c, Pool(found, always, recent));
            ranking != [] && ranking[0] in Matches(found)
  {
    var ranking := Sorted(c, Pool(found, always, recent));
    RankingIsComplete(c, found, always, recent);
    var best := Candidate(found[0], Relevance(0, |found|));
    assert best in ranking;
    var k :| 0 <= k < |ranking| && ranking[k] == best;
    assert k != 0 ==> Before(c, ranking[0], ranking[k]);
    MatchOutscores(c, found[0], 0, |found|, ranking[0].fact);
    assert best == Matches(found)[0];
  }

  /** Matches that clear the bar all come before everything that did not match. */
  lemma ClearMatchesLead(c: Curves, found: seq<Fact>, always: seq<Fact>, recent: seq<Fact>, m: nat, i: nat, j: nat)
    requires Bounded(c) && DistinctFacts(found) && m < |found| && Clears(found[m].tier, m, |found|)
    ensures var ranking := Sorted(c, Pool(found, always, recent));
            (i < |ranking| && j < |ranking| && ranking[i] == Matches(found)[m] && ranking[j] !in Matches(found)) ==> i < j
  {
    var ranking := Sorted(c, Pool(found, always, recent));
    RankingIsComplete(c, found, always, recent);
    if i < |ranking| && j <= i && ranking[i] == Matches(found)[m] {
      assert j < i ==> Before(c, ranking[j], ranking[i]);
      ClearMatchOutscores(c, found[m], m, |found|, ranking[j].fact);
    }
  }

  /** So do all matched durable facts. */
  lemma DurableMatchesLead(c: Curves, found: seq<Fact>, always: seq<Fact>, recent: seq<Fact>, i: nat, j: nat)
    requires Bounded(c) && DistinctFacts(found)
    ensures var ranking := Sorted(c, Pool(found, always, recent));
            (&& i < |ranking| && j < |ranking|
             && ranking[i] in Matches(found) && ranking[i].fact.tier == Durable
             && ranking[j] !in Matches(found)) ==> i < j
  {
    var ranking := Sorted(c, Pool(found, always, recent));
    if i < |ranking| && ranking[i] in Matches(found) && ranking[i].fact.tier == Durable {
      var m :| 0 <= m < |found| && Matches(found)[m] == ranking[i];
      ClearsWhen(Durable, m, |found|);
      ClearMatchesLead(c, found, always, recent, m, i, j);
    }
  }

  /** Facts like `f` that say these texts, with `f` itself in the place it is to have and ids from 3 up for the others. */
  function Placed(f: Fact, index: nat, texts: seq<string>): (found: seq<Fact>)
    requires index < |texts| && f.content == texts[index]
    ensures |found| == |texts| && found[index] == f
    ensures forall i :: 0 <= i < |texts| ==> found[i].content == texts[i]
    ensures forall i :: 0 <= i < |texts| && i != index ==> found[i].id == i + 3 && found[i].tier == f.tier
  {
    seq(|texts|, i requires 0 <= i < |texts| => if i == index then f else f.(id := i + 3, content := texts[i]))
  }

  /**
   And below the bar none is sure to: whatever the matches and the standing fact say, the standing
   fact can come before the match.
   */
  lemma BelowTheBarMayTrail(c: Curves, tier: Tier, index: nat, texts: seq<string>, standing: string)
      returns (found: seq<Fact>, always: seq<Fact>, i: nat, j: nat)
    requires Bounded(c) && Reaching(c) && index < |texts| && !Clears(tier, index, |texts|)
    ensures DistinctFacts(found) && |found| == |texts| && found[index].tier == tier
    ensures forall k :: 0 <= k < |texts| ==> found[k].content == texts[k]
    ensures |always| == 1 && always[0].content == standing && always[0].tier == Durable
    ensures var ranking := Sorted(c, Pool(found, always, []));
            && i < |ranking| && j < i && ranking[i] == Matches(found)[index] && ranking[j] !in Matches(found)
  {
    var f, other := LaterMatchMayLose(c, tier, index, |texts|, texts[index], standing);
    found, always := Placed(f, index, texts), [other];
    assert forall x :: x in found ==> x.id != other.id;
    i, j := StandingFactLeads(c, found, other, index);
  }

  lemma StandingFactLeads(c: Curves, found: seq<Fact>, other: Fact, index: nat) returns (i: nat, j: nat)
    requires DistinctFacts(found) && index < |found| && forall x :: x in found ==> x.id != other.id
    requires Score(c, found[index], Relevance(index, |found|)) < Score(c, other, 0.0)
    ensures var ranking := Sorted(c, Pool(found, [other], []));
            && j < i < |ranking| && ranking[i] == Matches(found)[index] && ranking[j] !in Matches(found)
  {
    var pool := Pool(found, [other], []);
    var ranking := Sorted(c, pool);
    StandingFact(found, other);
    SortedRanks(c, pool);
    SameMembers(ranking, pool);
    assert pool[index] == Matches(found)[index] && pool[|found|] == Candidate(other, 0.0);
    assert pool[index] in ranking && pool[|found|] in ranking;
    i :| 0 <= i < |ranking| && ranking[i] == Matches(found)[index];
    j :| 0 <= j < |ranking| && ranking[j] == Candidate(other, 0.0);
    assert i < j ==> Before(c, ranking[i], ranking[j]);
  }

  lemma StandingFact(found: seq<Fact>, other: Fact)
    requires found != [] && forall f :: f in found ==> f.id != other.id
    ensures Pool(found, [other], []) == Matches(found) + [Candidate(other, 0.0)]
  {
    assert [other][1..] == [];
    assert !Lists(Matches(found), other.id);
    assert Joined(Matches(found) + [Candidate(other, 0.0)], []) == Matches(found) + [Candidate(other, 0.0)];
  }
}
