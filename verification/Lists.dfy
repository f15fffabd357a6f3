/** Sequences without repetition, and sequences in an order. */
module Lists {

  ghost predicate Distinct<T(!new)>(s: seq<T>) {
    forall i, j :: 0 <= i < j < |s| ==> s[i] != s[j]
  }

  /** Every element comes before all that follow it. */
  ghost predicate Ascending<T(!new)>(s: seq<T>, before: (T, T) -> bool) {
    forall i, j :: 0 <= i < j < |s| ==> before(s[i], s[j])
  }

  lemma DistinctCount<T(!new)>(s: seq<T>, elements: set<T>)
    requires Distinct(s) && forall x :: x in s <==> x in elements
    ensures |s| == |elements|
  {
    DistinctMultiset(s);
    assert (set x | x in s) == elements;
    assert |multiset(s)| == |s|;
    assert |multiset(elements)| == |elements|;
  }

  lemma {:induction false} DistinctMultiset<T(!new)>(s: seq<T>)
    requires Distinct(s)
    ensures multiset(s) == multiset(set x | x in s)
  {
    if s == [] {
      assert (set x | x in s) == {};
    } else {
      var n := |s| - 1;
      var front := s[..n];
      DistinctMultiset(front);
      assert s == front + [s[n]];
      assert (set x | x in s) == (set x | x in front) + {s[n]};
      assert s[n] !in front;
    }
  }

  lemma SubsetIsSmaller<T>(a: set<T>, b: set<T>)
    requires a <= b
    ensures |a| <= |b|
  {
    assert b == a + (b - a);
  }
}
