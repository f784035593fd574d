/** A few facts about sets and sequences that several modules need. */
module Collections {
  method Pick<T(==)>(s: set<T>) returns (x: T)
    requires s != {}
    ensures x in s
  {
    x :| x in s;
  }

  lemma NoMembers<T>(s: set<T>)
    requires forall x :: x !in s
    ensures s == {}
  {
  }

  /** The numbers below `m` of which `p` holds. */
  ghost function Below(p: nat -> bool, m: nat): set<nat> { set k: nat | k < m && p(k) }

  lemma OneMoreBelow(p: nat -> bool, n: nat)
    ensures |Below(p, n + 1)| == |Below(p, n)| + if p(n) then 1 else 0
  {
    if p(n) {
      assert Below(p, n + 1) == Below(p, n) + {n};
    } else {
      assert Below(p, n + 1) == Below(p, n);
    }
  }

  lemma Shrinks<T>(a: set<T>, b: set<T>)
    requires a < b
    ensures |a| < |b|
  {
    assert b == a + (b - a);
    assert |b - a| > 0;
  }

  lemma SameMembers<T>(a: seq<T>, b: seq<T>)
    requires multiset(a) == multiset(b)
    ensures forall x :: x in a <==> x in b
  {
    forall x ensures x in a <==> x in b {
      assert x in a <==> x in multiset(a);
      assert x in b <==> x in multiset(b);
    }
  }

  lemma NoLarger<T>(a: set<T>, b: set<T>)
    requires a <= b
    ensures |a| <= |b|
  {
    if a != b {
      Shrinks(a, b);
    }
  }

  lemma OneLarger<T>(a: set<T>, b: set<T>, x: T)
    requires a <= b + {x}
    ensures |a| <= |b| + 1
  {
    NoLarger(a, b + {x});
  }
}
