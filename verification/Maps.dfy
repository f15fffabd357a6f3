/** Facts about maps and sets, and the pattern by which loops visit a Go map in an unspecified order. */
module Maps {

  /** `done` is the part of `all` that a loop has visited when the keys `rest` remain. */
  ghost predicate Visited<K, V>(all: map<K, V>, rest: set<K>, done: map<K, V>) {
    rest <= all.Keys && done.Keys == all.Keys - rest && forall k :: k in done ==> done[k] == all[k]
  }

  lemma VisitNext<K, V>(all: map<K, V>, rest: set<K>, done: map<K, V>, k: K)
    requires Visited(all, rest, done) && k in rest
    ensures k !in done && Visited(all, rest - {k}, done[k := all[k]])
  {
  }

  lemma VisitedAll<K, V>(all: map<K, V>, done: map<K, V>)
    requires Visited(all, {}, done)
    ensures done == all
  {
  }

  lemma AddThenSet<K, V>(a: map<K, V>, b: map<K, V>, k: K, v: V)
    ensures a + b[k := v] == (a + b)[k := v]
  {
  }

  ghost function AnyOf<T>(s: set<T>): (x: T)
    requires s != {}
    ensures x in s
  {
    var x :| x in s;
    x
  }

  /** `m` is the greatest element of `s`. */
  predicate IsMax(s: set<int>, m: int) {
    m in s && forall x :: x in s ==> x <= m
  }

  lemma {:induction false} MaxExists(s: set<int>)
    requires s != {}
    ensures exists m :: IsMax(s, m)
  {
    hide IsMax;
    var m := AnyOf(s);
    if s == {m} {
      MaxOfOne(m);
    } else {
      SmallerSet(s, m);
      MaxExists(s - {m});
      var rest :| IsMax(s - {m}, rest);
      MaxOfMore(s, m, rest);
    }
  }

  lemma SmallerSet<T>(s: set<T>, x: T)
    requires x in s && s != {x}
    ensures s - {x} != {} && |s - {x}| < |s|
  {
    assert forall y :: y in s ==> y == x || y in s - {x};
  }

  lemma MaxOfOne(x: int)
    ensures IsMax({x}, x)
  {
  }

  lemma MaxOfMore(s: set<int>, x: int, m: int)
    requires x in s && IsMax(s - {x}, m)
    ensures IsMax(s, if x < m then m else x)
  {
    forall y | y in s ensures y <= if x < m then m else x {
      assert y == x || y in s - {x};
    }
  }

  /** COALESCE(MAX(...), 0). */
  function MaxOf(s: set<int>): (m: int)
    ensures if s == {} then m == 0 else IsMax(s, m)
  {
    if s == {} then 0
    else
      MaxExists(s);
      var m :| IsMax(s, m);
      m
  }
}
