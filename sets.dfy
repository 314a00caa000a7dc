/** Cardinality facts about finite sets of names, shared by the loops that
    walk a set one element at a time. */
module Sets {
  /** A subset is no larger than its superset. */
  lemma SubsetNoLarger(small: set<string>, big: set<string>)
    requires small <= big
    ensures |small| <= |big|
  {
    assert big == small + (big - small);
  }

  /** Adding a missing element of `b` to a subset of `b` keeps it a subset
      and grows it by one. */
  lemma OneMore(a: set<string>, b: set<string>, m: string)
    requires a <= b && m in b && m !in a
    ensures a + {m} <= b && |a + {m}| <= |b| && |a + {m}| == |a| + 1
  {
    SubsetNoLarger(a + {m}, b);
  }
}
