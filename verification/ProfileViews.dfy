/** A profile as its readers see it: at each path a value and the source that decides it. Updates
    and duplicate merges act on each path alone; their laws are stated here. */
module ProfileViews {
  import opened JsonValues
  import opened Authority

  datatype Entry = Entry(value: Json, source: string)

  type Profile = map<string, Entry>

  function Rank(e: Entry): int {
    PriorityOf(e.source)
  }

  // ---------- updates ----------

  function DecisionFor(v: Profile, path: string, incoming: Json, source: string): Decision {
    if path !in v then Apply else MergeFieldAuthority(v[path].value, incoming, v[path].source, source)
  }

  /** The entries with which an update wins. */
  function Won(v: Profile, inc: Object, source: string): Profile {
    map p | p in inc && DecisionFor(v, p, inc[p], source).Apply? :: Entry(inc[p], source)
  }

  /** The paths at which it loses. */
  function Lost(v: Profile, inc: Object, source: string): set<string> {
    set p | p in inc && DecisionFor(v, p, inc[p], source).Conflict?
  }

  /** The profile after an update: every path that wins takes the incoming value and source,
      every other path keeps both. */
  function UpdateView(v: Profile, inc: Object, source: string): Profile {
    v + Won(v, inc, source)
  }

  /** The entry is of the source that now writes, in any spelling. */
  predicate OwnedBy(e: Entry, source: string) {
    Canonical(e.source) != "" && Canonical(e.source) == Canonical(source)
  }

  lemma OwnedIsAsStrong(e: Entry, source: string)
    requires OwnedBy(e, source)
    ensures PriorityOf(source) == Rank(e)
  {
  }

  /** When an update wins against an entry, when it is the same, and when and why it loses: equal
      values are the same; else a source wins over itself and over weaker ones, and loses to
      stronger ones and to other sources of its own priority. */
  lemma DecisionMeaning(e: Entry, incoming: Json, source: string)
    ensures
      var d := MergeFieldAuthority(e.value, incoming, e.source, source);
      (d.Equal? <==> e.value == incoming) &&
      (d.Apply? <==> e.value != incoming && (OwnedBy(e, source) || PriorityOf(source) > Rank(e))) &&
      (d == Conflict("incoming source has lower priority than existing") <==>
        e.value != incoming && PriorityOf(source) < Rank(e)) &&
      (d == Conflict("same priority and different values from different sources") <==>
        e.value != incoming && PriorityOf(source) == Rank(e) && !OwnedBy(e, source))
  {
  }

  /** The paths at which an update loses: it brings another value, and is neither of the entry's own
      source nor of a stronger one. */
  lemma LostMeans(v: Profile, inc: Object, source: string, path: string)
    ensures path in Lost(v, inc, source) <==>
      path in inc && path in v && v[path].value != inc[path] && !OwnedBy(v[path], source) && PriorityOf(source) <= Rank(v[path])
  {
    hide MergeFieldAuthority, Canonical, PriorityOf;
    if path in inc && path in v { DecisionMeaning(v[path], inc[path], source); }
  }

  /** What becomes of each path in an update: one that is new, or that the update wins, takes value
      and source; every other stays as it is. */
  lemma UpdateByPath(v: Profile, inc: Object, source: string, path: string)
    ensures path in UpdateView(v, inc, source) <==> path in v || path in inc
    ensures path in inc && (path in v ==> v[path].value != inc[path] && (OwnedBy(v[path], source) || PriorityOf(source) > Rank(v[path]))) ==>
      UpdateView(v, inc, source)[path] == Entry(inc[path], source)
    ensures path in v && (path in inc ==> v[path].value == inc[path] || !(OwnedBy(v[path], source) || PriorityOf(source) > Rank(v[path]))) ==>
      UpdateView(v, inc, source)[path] == v[path]
  {
    hide MergeFieldAuthority, PriorityOf, Canonical;
    if path in v && path in inc { DecisionMeaning(v[path], inc[path], source); }
  }

  /** A source may always change what it has written itself: afterwards the profile has its values
      there, and none of them is reported. */
  lemma OwnUpdateWins(v: Profile, inc: Object, source: string, path: string)
    requires path in v && path in inc && OwnedBy(v[path], source)
    ensures path in UpdateView(v, inc, source) && UpdateView(v, inc, source)[path].value == inc[path]
    ensures path !in Lost(v, inc, source)
  {
    hide MergeFieldAuthority, Canonical, PriorityOf;
    DecisionMeaning(v[path], inc[path], source);
  }

  /** Repeating an update changes nothing and meets the same conflicts. */
  lemma RepeatedUpdate(v: Profile, inc: Object, source: string)
    ensures UpdateView(UpdateView(v, inc, source), inc, source) == UpdateView(v, inc, source)
    ensures forall p :: p in inc ==>
      var before, after := DecisionFor(v, p, inc[p], source), DecisionFor(UpdateView(v, inc, source), p, inc[p], source);
      if before.Apply? then after.Equal? else after == before
  {
    var w := UpdateView(v, inc, source);
    forall p | p in inc
      ensures var before, after := DecisionFor(v, p, inc[p], source), DecisionFor(w, p, inc[p], source);
              if before.Apply? then after.Equal? else after == before
    {
      assert DecisionFor(v, p, inc[p], source).Apply? ==> w[p] == Entry(inc[p], source);
    }
    assert UpdateView(w, inc, source) == w;
  }

  // ---------- duplicate merge ----------

  /** The entry of a merge at a path: the target's, unless the source's is strictly stronger. */
  function Stronger(t: Profile, s: Profile, path: string): Entry
    requires path in t || path in s
  {
    if path !in s then t[path]
    else if path !in t || Rank(s[path]) > Rank(t[path]) then s[path]
    else t[path]
  }

  function MergeView(t: Profile, s: Profile): (r: Profile)
    ensures r.Keys == t.Keys + s.Keys
  {
    map p | p in t.Keys + s.Keys :: Stronger(t, s, p)
  }

  /** How a chain of merges is bracketed. */
  datatype Bracketing = Single(profile: Profile) | Pair(target: Bracketing, source: Bracketing) {
    function Profiles(): seq<Profile> {
      match this
      case Single(p) => [p]
      case Pair(t, s) => t.Profiles() + s.Profiles()
    }

    function Merged(): Profile {
      match this
      case Single(p) => p
      case Pair(t, s) => MergeView(t.Merged(), s.Merged())
    }
  }

  /** `k` is the first of the profiles whose entry at `path` has the highest priority. */
  ghost predicate IsFirstStrongest(ps: seq<Profile>, path: string, k: int) {
    0 <= k < |ps| && path in ps[k] &&
    (forall i :: 0 <= i < k && path in ps[i] ==> Rank(ps[i][path]) < Rank(ps[k][path])) &&
    (forall i :: k <= i < |ps| && path in ps[i] ==> Rank(ps[i][path]) <= Rank(ps[k][path]))
  }

  ghost predicate SomeHas(ps: seq<Profile>, path: string) {
    exists i :: 0 <= i < |ps| && path in ps[i]
  }

  lemma SomeHasOfTwo(ts: seq<Profile>, ss: seq<Profile>, path: string)
    ensures SomeHas(ts + ss, path) <==> SomeHas(ts, path) || SomeHas(ss, path)
  {
    if SomeHas(ts, path) {
      var i :| 0 <= i < |ts| && path in ts[i];
      assert (ts + ss)[i] == ts[i];
    }
    if SomeHas(ss, path) {
      var i :| 0 <= i < |ss| && path in ss[i];
      assert (ts + ss)[|ts| + i] == ss[i];
    }
  }

  /** `r` has `path` when some of the profiles has it, and then the first strongest entry. */
  ghost predicate HoldsFirstStrongest(ps: seq<Profile>, path: string, r: Profile) {
    (path in r <==> SomeHas(ps, path)) &&
    (path in r ==> exists k :: IsFirstStrongest(ps, path, k) && r[path] == ps[k][path])
  }

  /** However a chain of merges is bracketed, each path ends with the first of its strongest
      entries. */
  lemma {:induction false} ChainTakesFirstStrongest(b: Bracketing, path: string)
    ensures HoldsFirstStrongest(b.Profiles(), path, b.Merged())
  {
    match b
    case Single(p) =>
      assert b.Profiles()[0] == p;
      assert path in p ==> IsFirstStrongest(b.Profiles(), path, 0);
    case Pair(t, s) =>
      ChainTakesFirstStrongest(t, path);
      ChainTakesFirstStrongest(s, path);
      MergeTakesFirstStrongest(t.Profiles(), s.Profiles(), path, t.Merged(), s.Merged());
  }

  lemma MergeTakesFirstStrongest(ts: seq<Profile>, ss: seq<Profile>, path: string, l: Profile, r: Profile)
    requires HoldsFirstStrongest(ts, path, l) && HoldsFirstStrongest(ss, path, r)
    ensures HoldsFirstStrongest(ts + ss, path, MergeView(l, r))
  {
    SomeHasOfTwo(ts, ss, path);
    if path in l && (path in r ==> Rank(r[path]) <= Rank(l[path])) {
      var k :| IsFirstStrongest(ts, path, k) && l[path] == ts[k][path];
      StrongestOnTheLeft(ts, ss, path, k);
      assert (ts + ss)[k] == ts[k];
    } else if path in r {
      var k :| IsFirstStrongest(ss, path, k) && r[path] == ss[k][path];
      StrongestOnTheRight(ts, ss, path, k);
      assert (ts + ss)[|ts| + k] == ss[k];
    }
  }

  lemma StrongestOnTheLeft(ts: seq<Profile>, ss: seq<Profile>, path: string, k: int)
    requires IsFirstStrongest(ts, path, k)
    requires forall i :: 0 <= i < |ss| && path in ss[i] ==> Rank(ss[i][path]) <= Rank(ts[k][path])
    ensures IsFirstStrongest(ts + ss, path, k)
  {
  }

  lemma StrongestOnTheRight(ts: seq<Profile>, ss: seq<Profile>, path: string, k: int)
    requires IsFirstStrongest(ss, path, k)
    requires forall i :: 0 <= i < |ts| && path in ts[i] ==> Rank(ts[i][path]) < Rank(ss[k][path])
    ensures IsFirstStrongest(ts + ss, path, |ts| + k)
  {
    var all := ts + ss;
    assert all[|ts| + k] == ss[k];
    forall i | |ts| <= i < |all| ensures all[i] == ss[i - |ts|] {}
  }

  /** Merging is associative, and merging a profile with itself changes nothing. */
  lemma {:induction false} MergeAssociative(a: Profile, b: Profile, c: Profile)
    ensures MergeView(MergeView(a, b), c) == MergeView(a, MergeView(b, c))
    ensures MergeView(a, a) == a
  {
    var l, r := MergeView(MergeView(a, b), c), MergeView(a, MergeView(b, c));
    assert l.Keys == r.Keys;
    forall p | p in l ensures l[p] == r[p] { AssociativeAt(a, b, c, p); }
  }

  lemma AssociativeAt(a: Profile, b: Profile, c: Profile, path: string)
    requires path in a || path in b || path in c
    ensures MergeView(MergeView(a, b), c)[path] == MergeView(a, MergeView(b, c))[path]
  {
    hide Rank;
    StrongerOf(a, b, path);
    StrongerOf(b, c, path);
  }

  lemma StrongerOf(t: Profile, s: Profile, path: string)
    ensures path in MergeView(t, s) <==> path in t || path in s
    ensures path in MergeView(t, s) ==> MergeView(t, s)[path] == Stronger(t, s, path)
  {
  }

  /** A merge has the paths of both profiles, at the higher of the two priorities, and takes the
      target's entry on a tie. */
  lemma MergeIsMaximum(t: Profile, s: Profile, path: string)
    requires path in MergeView(t, s)
    ensures path in t ==> Rank(MergeView(t, s)[path]) >= Rank(t[path])
    ensures path in s ==> Rank(MergeView(t, s)[path]) >= Rank(s[path])
    ensures MergeView(t, s)[path] != (if path in t then t[path] else s[path]) ==>
            path in t && path in s && MergeView(t, s)[path] == s[path] && Rank(s[path]) > Rank(t[path])
  {
  }
}
