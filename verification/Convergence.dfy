/** Updates from several sources, applied one after another in any order. */
module Convergence {
  import opened JsonValues
  import opened Authority
  import opened ProfileViews

  /** An update: the flat incoming document and the source that writes it. */
  datatype Write = Write(values: Object, source: string)

  function ApplyWrite(v: Profile, w: Write): Profile {
    UpdateView(v, w.values, w.source)
  }

  function ApplyAll(v: Profile, ws: seq<Write>): Profile
    decreases |ws|
  {
    if ws == [] then v else ApplyAll(ApplyWrite(v, ws[0]), ws[1..])
  }

  function Strength(w: Write): int {
    PriorityOf(w.source)
  }

  /** No two of the writes have sources of the same priority. */
  predicate DistinctStrengths(ws: seq<Write>) {
    forall i, j :: 0 <= i < j < |ws| ==> Strength(ws[i]) != Strength(ws[j])
  }

  /** `a` is the strongest of the writes to `path`. */
  predicate IsTop(a: Write, path: string, ws: seq<Write>) {
    a in ws && path in a.values && forall b :: b in ws && path in b.values ==> Strength(b) <= Strength(a)
  }

  /** At every path the strongest write brings a value that no other write brings. */
  ghost predicate TopValuesUnshared(ws: seq<Write>) {
    forall a, b, path :: IsTop(a, path, ws) && b in ws && b != a && path in b.values ==> b.values[path] != a.values[path]
  }

  ghost predicate OrderIndependent(ws: seq<Write>) {
    forall vs :: multiset(vs) == multiset(ws) ==> ApplyAll(map[], vs) == ApplyAll(map[], ws)
  }

  /** Updates whose sources have pairwise different priorities give the same profile in every
      order exactly when, at every path, the strongest write brings a value of its own; the
      profile then holds the strongest write of each path. When another write brings the same
      value, the weaker source may get there first and the equal value does not raise it. */
  lemma UpdatesConverge(ws: seq<Write>)
    requires DistinctStrengths(ws)
    ensures OrderIndependent(ws) <==> TopValuesUnshared(ws)
    ensures TopValuesUnshared(ws) ==> HoldsTopOfEach(ApplyAll(map[], ws), ws)
  {
    if TopValuesUnshared(ws) {
      HoldsTops(ws);
      forall vs | multiset(vs) == multiset(ws) ensures ApplyAll(map[], vs) == ApplyAll(map[], ws) {
        SameMembers(vs, ws);
        HoldsTops(vs);
        TopsDecide(ApplyAll(map[], vs), ApplyAll(map[], ws), vs, ws);
      }
    } else {
      SharedTopDiverges(ws);
    }
  }

  ghost predicate IsWritten(ws: seq<Write>, path: string) {
    exists w :: w in ws && path in w.values
  }

  /** The profile has the written paths, each with its strongest write. */
  ghost predicate HoldsTopOfEach(v: Profile, ws: seq<Write>) {
    forall path ::
      (path in v <==> IsWritten(ws, path)) &&
      forall a :: IsTop(a, path, ws) ==> path in v && v[path] == Entry(a.values[path], a.source)
  }

  lemma HoldsTops(ws: seq<Write>)
    requires TopValuesUnshared(ws) && forall a, b :: a in ws && b in ws && a != b ==> Strength(a) != Strength(b)
    ensures HoldsTopOfEach(ApplyAll(map[], ws), ws)
  {
    forall path
      ensures path in ApplyAll(map[], ws) <==> IsWritten(ws, path)
      ensures forall a :: IsTop(a, path, ws) ==>
        path in ApplyAll(map[], ws) && ApplyAll(map[], ws)[path] == Entry(a.values[path], a.source)
    {
      PathsOf(map[], ws, path);
      forall a | IsTop(a, path, ws)
        ensures path in ApplyAll(map[], ws) && ApplyAll(map[], ws)[path] == Entry(a.values[path], a.source)
      {
        TopArrives(map[], ws, path, a);
      }
    }
  }

  lemma {:induction false} PathsOf(v: Profile, ws: seq<Write>, path: string)
    ensures path in ApplyAll(v, ws) <==> path in v || IsWritten(ws, path)
    decreases |ws|
  {
    if ws != [] {
      assert ws == [ws[0]] + ws[1..];
      PathsOf(ApplyWrite(v, ws[0]), ws[1..], path);
      assert IsWritten(ws, path) <==> path in ws[0].values || IsWritten(ws[1..], path);
    }
  }

  /** Every write to `path` other than `a` is weaker than `a` and brings another value. */
  predicate Dominates(a: Write, path: string, ws: seq<Write>) {
    path in a.values &&
    forall b :: b in ws && path in b.values && b != a ==>
      Strength(b) < Strength(a) && b.values[path] != a.values[path]
  }

  /** Once the strongest write has arrived, it stays. */
  lemma {:induction false} TopStays(v: Profile, ws: seq<Write>, path: string, a: Write)
    requires Dominates(a, path, ws)
    requires path in v && v[path] == Entry(a.values[path], a.source)
    ensures path in ApplyAll(v, ws) && ApplyAll(v, ws)[path] == v[path]
    decreases |ws|
  {
    if ws != [] {
      var b := ws[0];
      if path in b.values {
        DecisionMeaning(v[path], b.values[path], b.source);
      }
      TopStays(ApplyWrite(v, b), ws[1..], path, a);
    }
  }

  /** Before that, the path is absent or holds something weaker and different. */
  lemma {:induction false} TopWins(v: Profile, ws: seq<Write>, path: string, a: Write)
    requires Dominates(a, path, ws) && a in ws
    requires path in v ==> Rank(v[path]) < Strength(a) && v[path].value != a.values[path]
    ensures path in ApplyAll(v, ws) && ApplyAll(v, ws)[path] == Entry(a.values[path], a.source)
    decreases |ws|
  {
    var b := ws[0];
    if path in v && path in b.values {
      DecisionMeaning(v[path], b.values[path], b.source);
    }
    if b == a {
      TopStays(ApplyWrite(v, b), ws[1..], path, a);
    } else {
      TopWins(ApplyWrite(v, b), ws[1..], path, a);
    }
  }

  lemma TopArrives(v: Profile, ws: seq<Write>, path: string, a: Write)
    requires TopValuesUnshared(ws) && forall a, b :: a in ws && b in ws && a != b ==> Strength(a) != Strength(b)
    requires IsTop(a, path, ws) && path !in v
    ensures path in ApplyAll(v, ws) && ApplyAll(v, ws)[path] == Entry(a.values[path], a.source)
  {
    TopWins(v, ws, path, a);
  }

  lemma SameMembers(vs: seq<Write>, ws: seq<Write>)
    requires multiset(vs) == multiset(ws) && TopValuesUnshared(ws) && DistinctStrengths(ws)
    ensures forall w :: w in vs <==> w in ws
    ensures TopValuesUnshared(vs)
    ensures forall a, b :: a in vs && b in vs && a != b ==> Strength(a) != Strength(b)
  {
    forall w ensures w in vs <==> w in ws {
      assert w in multiset(vs) <==> w in multiset(ws);
    }
    forall a, path ensures IsTop(a, path, vs) <==> IsTop(a, path, ws) {}
  }

  lemma TopsDecide(v: Profile, v': Profile, vs: seq<Write>, ws: seq<Write>)
    requires HoldsTopOfEach(v, vs) && HoldsTopOfEach(v', ws)
    requires forall w :: w in vs <==> w in ws
    ensures v == v'
  {
    forall path
      ensures path in v <==> path in v'
      ensures path in v ==> v[path] == v'[path]
    {
      assert IsWritten(vs, path) <==> IsWritten(ws, path);
      if IsWritten(vs, path) {
        var a := TopExists(vs, path);
        assert IsTop(a, path, ws);
      }
    }
  }

  lemma {:induction false} TopExists(ws: seq<Write>, path: string) returns (a: Write)
    requires IsWritten(ws, path)
    ensures IsTop(a, path, ws)
  {
    var first, rest := ws[0], ws[1..];
    assert ws == [first] + rest;
    if IsWritten(rest, path) {
      a := TopExists(rest, path);
      if path in first.values && Strength(first) > Strength(a) { a := first; }
    } else {
      a := first;
    }
  }

  // ---------- why the condition is needed ----------

  /** A source that writes nothing any more never comes back. */
  lemma {:induction false} SourceStaysAway(v: Profile, ws: seq<Write>, path: string, source: string)
    requires forall w :: w in ws ==> w.source != source
    requires path in v && v[path].source != source
    ensures path in ApplyAll(v, ws) && ApplyAll(v, ws)[path].source != source
    decreases |ws|
  {
    if ws != [] {
      SourceStaysAway(ApplyWrite(v, ws[0]), ws[1..], path, source);
    }
  }

  lemma SharedTopDiverges(ws: seq<Write>)
    requires DistinctStrengths(ws) && !TopValuesUnshared(ws)
    ensures !OrderIndependent(ws)
  {
    hide ApplyWrite, ApplyAll, Strength, OrderIndependent;
    var a, b, path :| IsTop(a, path, ws) && b in ws && b != a && path in b.values && b.values[path] == a.values[path];
    var i :| 0 <= i < |ws| && ws[i] == a;
    var some := Without(ws, i);
    var j :| 0 <= j < |some| && some[j] == b;
    var rest := Without(some, j);
    forall w | w in rest ensures w.source != a.source && (path in w.values ==> Strength(w) < Strength(a)) {
      assert w in some && w in ws;
      SourcesDiffer(ws, a, w);
    }
    SourcesDiffer(ws, a, b);
    StrongerFirst(a, b, rest, path);
    WeakerFirst(a, b, rest, path);
    PairFirst(ws, some, rest, a, b);
    TwoOrders(ws, [a, b] + rest, [b, a] + rest);
  }

  lemma SourcesDiffer(ws: seq<Write>, a: Write, w: Write)
    requires DistinctStrengths(ws) && a in ws && w in ws && w != a
    ensures w.source != a.source && Strength(w) != Strength(a)
  {
  }

  lemma PairFirst(ws: seq<Write>, some: seq<Write>, rest: seq<Write>, a: Write, b: Write)
    requires multiset(ws) == multiset{a} + multiset(some)
    requires multiset(some) == multiset{b} + multiset(rest)
    ensures multiset([a, b] + rest) == multiset(ws) && multiset([b, a] + rest) == multiset(ws)
  {
  }

  lemma TwoOrders(ws: seq<Write>, vs: seq<Write>, vs': seq<Write>)
    requires multiset(vs) == multiset(ws) && multiset(vs') == multiset(ws)
    requires ApplyAll(map[], vs) != ApplyAll(map[], vs')
    ensures !OrderIndependent(ws)
  {
  }

  /** The writes without the one at `i`. */
  lemma Without(ws: seq<Write>, i: int) returns (rest: seq<Write>)
    requires DistinctStrengths(ws) && 0 <= i < |ws|
    ensures multiset(ws) == multiset{ws[i]} + multiset(rest)
    ensures DistinctStrengths(rest)
    ensures forall w :: w in rest ==> w in ws && Strength(w) != Strength(ws[i])
    ensures forall w :: w in ws && w != ws[i] ==> w in rest
  {
    hide DistinctStrengths, Strength;
    rest := ws[..i] + ws[i + 1..];
    MembersWithout(ws, i, rest);
    CountWithout(ws, i);
  }

  lemma CountWithout(ws: seq<Write>, i: int)
    requires 0 <= i < |ws|
    ensures multiset(ws) == multiset{ws[i]} + multiset(ws[..i] + ws[i + 1..])
  {
    assert ws == ws[..i] + [ws[i]] + ws[i + 1..];
  }

  lemma MembersWithout(ws: seq<Write>, i: int, rest: seq<Write>)
    requires DistinctStrengths(ws) && 0 <= i < |ws| && rest == ws[..i] + ws[i + 1..]
    ensures DistinctStrengths(rest)
    ensures forall w :: w in rest ==> w in ws && Strength(w) != Strength(ws[i])
    ensures forall w :: w in ws && w != ws[i] ==> w in rest
  {
    hide Strength;
    forall j | 0 <= j < |rest| ensures rest[j] == ws[if j < i then j else j + 1] {}
    forall w | w in ws && w != ws[i] ensures w in rest {
      var j :| 0 <= j < |ws| && ws[j] == w;
      assert rest[if j < i then j else j - 1] == w;
    }
  }

  /** With the strongest write first its source stays. */
  lemma StrongerFirst(a: Write, b: Write, rest: seq<Write>, path: string)
    requires path in a.values && path in b.values && b.values[path] == a.values[path]
    requires forall w :: w in rest && path in w.values ==> Strength(w) < Strength(a)
    ensures path in ApplyAll(map[], [a, b] + rest) && ApplyAll(map[], [a, b] + rest)[path].source == a.source
  {
    var v1 := ApplyWrite(map[], a);
    var v2 := ApplyWrite(v1, b);
    assert ([a, b] + rest)[1..] == [b] + rest && ([b] + rest)[1..] == rest;
    assert v2[path] == Entry(a.values[path], a.source);
    StrongSourceStays(v2, rest, path);
  }

  lemma {:induction false} StrongSourceStays(v: Profile, ws: seq<Write>, path: string)
    requires path in v
    requires forall w :: w in ws && path in w.values ==> Strength(w) < Rank(v[path])
    ensures path in ApplyAll(v, ws) && ApplyAll(v, ws)[path] == v[path]
    decreases |ws|
  {
    if ws != [] {
      var b := ws[0];
      if path in b.values { DecisionMeaning(v[path], b.values[path], b.source); }
      StrongSourceStays(ApplyWrite(v, b), ws[1..], path);
    }
  }

  /** With the weaker write of the same value first the strongest source never gets in. */
  lemma WeakerFirst(a: Write, b: Write, rest: seq<Write>, path: string)
    requires path in a.values && path in b.values && b.values[path] == a.values[path]
    requires b.source != a.source && forall w :: w in rest ==> w.source != a.source
    ensures path in ApplyAll(map[], [b, a] + rest) && ApplyAll(map[], [b, a] + rest)[path].source != a.source
  {
    var v1 := ApplyWrite(map[], b);
    var v2 := ApplyWrite(v1, a);
    assert ([b, a] + rest)[1..] == [a] + rest && ([a] + rest)[1..] == rest;
    assert v2[path] == Entry(b.values[path], b.source);
    SourceStaysAway(v2, rest, path, a.source);
  }
}
