/** Filtering a document by the segments that a caller's roles may see. */
module Abac {
  import opened Text
  import opened JsonValues
  import opened Maps
  import opened DocumentPaths
  import opened ProfileViews
  import opened AuthorityMerge
  import opened DuplicateMerge

  // ---------- the policy ----------

  /** The roles that open each segment. An empty policy is switched off. */
  type Policy = map<string, seq<string>>

  function NormalRoles(roles: seq<string>): seq<string> {
    if roles == [] then []
    else
      var r := TrimSpace(roles[0]);
      (if r == "" then [] else [r]) + NormalRoles(roles[1..])
  }

  /** A policy read from its configuration: blank segments and blank roles are dropped. Two
      spellings of one segment overwrite each other, in the order of the Go map. */
  ghost predicate IsNormalPolicy(raw: Policy, policy: Policy) {
    (forall k :: k in raw && TrimSpace(k) != "" ==> TrimSpace(k) in policy) &&
    forall seg :: seg in policy ==>
      seg != "" && exists k :: k in raw && TrimSpace(k) == seg && policy[seg] == NormalRoles(raw[k])
  }

  method ParsePolicy(raw: Policy) returns (policy: Policy)
    ensures IsNormalPolicy(raw, policy)
  {
    policy := map[];
    var rest := raw.Keys;
    ghost var done: Policy := map[];
    while rest != {}
      invariant Visited(raw, rest, done)
      invariant IsNormalPolicy(done, policy)
    {
      var seg :| seg in rest;
      VisitNext(raw, rest, done, seg);
      rest := rest - {seg};
      ghost var before, old' := done, policy;
      done := done[seg := raw[seg]];
      var trimmed := TrimSpace(seg);
      if trimmed != "" {
        policy := policy[trimmed := NormalRoles(raw[seg])];
      }
      forall s | s in policy
        ensures s != "" && exists k :: k in done && TrimSpace(k) == s && policy[s] == NormalRoles(done[k])
      {
        if s == trimmed {
          assert seg in done;
        } else {
          var k :| k in before && TrimSpace(k) == s && old'[s] == NormalRoles(before[k]);
          assert k in done;
        }
      }
    }
    VisitedAll(raw, done);
  }

  /** The segment is open to a caller with the given roles. */
  predicate Visible(policy: Policy, roles: set<string>, segment: string) {
    var s := TrimSpace(segment);
    s in policy && exists r :: r in policy[s] && r in roles
  }

  /** The roles of a caller, as the token lists them. */
  function RoleSet(realmRoles: seq<string>): set<string> {
    set r | r in NormalRoles(realmRoles)
  }

  function VisibleTo(policy: Policy, roles: set<string>): string -> bool {
    segment => Visible(policy, roles, segment)
  }

  // ---------- the filter ----------

  function SegmentFromPath(path: string): string {
    match Cut(TrimSpace(path))
    case NotFound => DEFAULT
    case Found(ns, _) => if ns == "" then DEFAULT else ns
  }

  function Segment(k: string, v: Json): string {
    if v.Obj? then k else DEFAULT
  }

  function FilteredData(doc: Object, visible: string -> bool): Object {
    map k | k in doc && k != META && visible(Segment(k, doc[k])) :: doc[k]
  }

  function FilteredAuthority(root: Object, visible: string -> bool): Object {
    map p | p in root && visible(SegmentFromPath(p)) :: root[p]
  }

  function FilteredMeta(meta: Object, visible: string -> bool): Object {
    var root := FilteredAuthority(AuthorityRoot(meta), visible);
    if root.Keys == {} then map[] else map[AUTHORITY := Obj(root)]
  }

  function Filtered(doc: Object, visible: string -> bool): Object {
    WithMeta(FilteredData(doc, visible), FilteredMeta(SplitMeta(doc).1, visible))
  }

  method FilterDocument(doc: Object, visible: string -> bool) returns (out: Object)
    ensures out == Filtered(doc, visible)
    ensures forall k :: k != "_meta" ==>
      (k in out <==> k in doc && visible(if doc[k].Obj? then k else "default")) && (k in out ==> out[k] == doc[k])
  {
    out := map[];
    var rest := doc.Keys;
    while rest != {}
      invariant rest <= doc.Keys
      invariant out.Keys == FilteredData(doc, visible).Keys - rest
      invariant forall k :: k in out ==> out[k] == doc[k]
    {
      var k :| k in rest;
      rest := rest - {k};
      if k != META {
        match doc[k]
        case Obj(_) => if visible(k) { out := out[k := doc[k]]; }
        case _ => if visible(DEFAULT) { out := out[k := doc[k]]; }
      }
    }
    assert out == FilteredData(doc, visible);
    if META in doc && doc[META].Obj? {
      var meta := FilterMeta(doc[META].fields, visible);
      if meta.Keys != {} {
        out := out[META := Obj(meta)];
      }
    }
  }

  method FilterMeta(meta: Object, visible: string -> bool) returns (out: Object)
    ensures out == FilteredMeta(meta, visible)
    ensures forall k :: k in out ==> k == "authority"
    ensures forall p ::
      (p in AuthorityRoot(out) <==> p in AuthorityRoot(meta) && visible(SegmentFromPath(p))) &&
      (p in AuthorityRoot(out) ==> AuthorityRoot(out)[p] == AuthorityRoot(meta)[p])
  {
    hide SegmentFromPath;
    if AUTHORITY !in meta || !meta[AUTHORITY].Obj? {
      return map[];
    }
    var root := meta[AUTHORITY].fields;
    var filtered: Object := map[];
    var rest := root.Keys;
    while rest != {}
      invariant rest <= root.Keys
      invariant filtered.Keys == FilteredAuthority(root, visible).Keys - rest
      invariant forall p :: p in filtered ==> filtered[p] == root[p]
    {
      var path :| path in rest;
      rest := rest - {path};
      if visible(SegmentFromPath(path)) {
        filtered := filtered[path := root[path]];
      }
    }
    assert filtered == FilteredAuthority(root, visible);
    if filtered.Keys == {} {
      return map[];
    }
    return map[AUTHORITY := Obj(filtered)];
  }

  /** Some role that the policy lists under the namespace, without spaces around it, is one of the
      caller's, without spaces around theirs. */
  ghost predicate MaySee(policy: Policy, realmRoles: seq<string>, ns: string) {
    TrimSpace(ns) in policy && exists r :: r in policy[TrimSpace(ns)] && HasRole(realmRoles, r)
  }

  ghost predicate HasRole(realmRoles: seq<string>, r: string) {
    r != "" && exists j :: 0 <= j < |realmRoles| && TrimSpace(realmRoles[j]) == r
  }

  /** What a caller is shown of a document. Without a policy nothing is filtered; under one, exactly the
      paths in namespaces that the caller may see are shown, as they are in the document. */
  method FilterSnapshot(policy: Policy, doc: Object, realmRoles: seq<string>) returns (out: Object)
    ensures out == if policy.Keys == {} then doc else Filtered(doc, VisibleTo(policy, RoleSet(realmRoles)))
    ensures policy.Keys != {} && "" !in policy && StoredWellFormed(doc) ==>
      StoredWellFormed(out) &&
      (forall p :: p in View(out) <==> p in View(doc) && Cut(p).Found? && MaySee(policy, realmRoles, Cut(p).before)) &&
      forall p :: p in View(out) ==> View(out)[p] == View(doc)[p]
    ensures policy.Keys != {} && "" !in policy ==> forall ns :: !MaySee(policy, realmRoles, ns) ==> LeavesNothingOf(out, ns)
  {
    if |policy| == 0 {
      assert |policy.Keys| == |policy|;
      return doc;
    }
    hide View, WellFormed, Filtered, MaySee, LeavesNothingOf;
    out := FilterDocument(doc, VisibleTo(policy, RoleSet(realmRoles)));
    if "" !in policy { ShownExactly(policy, doc, realmRoles); }
  }

  /** No object of that name, no root field if it is "default", and no authority entry of a path in it. */
  ghost predicate LeavesNothingOf(out: Object, ns: string) {
    (ns in out && ns != META ==> !out[ns].Obj?) &&
    (TrimSpace(ns) == "default" ==> forall k :: k in out && k != META ==> out[k].Obj?) &&
    ('/' !in ns && TrimSpace(ns) != "" ==> forall f :: ns + "/" + f !in AuthorityRoot(SplitMeta(out).1))
  }

  lemma ShownExactly(policy: Policy, doc: Object, realmRoles: seq<string>)
    requires "" !in policy
    ensures
      var out := Filtered(doc, VisibleTo(policy, RoleSet(realmRoles)));
      (StoredWellFormed(doc) ==>
        StoredWellFormed(out) &&
        (forall p :: p in View(out) <==> p in View(doc) && Cut(p).Found? && MaySee(policy, realmRoles, Cut(p).before)) &&
        forall p :: p in View(out) ==> View(out)[p] == View(doc)[p]) &&
      forall ns :: !MaySee(policy, realmRoles, ns) ==> LeavesNothingOf(out, ns)
  {
    hide View, WellFormed, Filtered, MaySee, LeavesNothingOf, Visible;
    var roles := RoleSet(realmRoles);
    forall ns ensures MaySee(policy, realmRoles, ns) <==> Visible(policy, roles, ns) { VisibleMeans(policy, realmRoles, ns); }
    if StoredWellFormed(doc) { PolicyFilterRestricts(doc, policy, roles); }
    forall ns | !MaySee(policy, realmRoles, ns) ensures LeavesNothingOf(Filtered(doc, VisibleTo(policy, roles)), ns) {
      PolicyIgnoresSpaces(policy, roles);
      NothingLeft(doc, VisibleTo(policy, roles), ns);
    }
  }

  lemma VisibleMeans(policy: Policy, realmRoles: seq<string>, ns: string)
    ensures Visible(policy, RoleSet(realmRoles), ns) <==> MaySee(policy, realmRoles, ns)
  {
    hide TrimSpace;
    forall r ensures r in NormalRoles(realmRoles) <==> HasRole(realmRoles, r) { NormalRolesAre(realmRoles, r); }
  }

  /** Normalizing keeps the roles without spaces around them, except blank ones. */
  lemma {:induction false} NormalRolesAre(roles: seq<string>, r: string)
    ensures r in NormalRoles(roles) <==> HasRole(roles, r)
  {
    hide TrimSpace;
    if roles != [] {
      NormalRolesAre(roles[1..], r);
      if HasRole(roles[1..], r) {
        var j :| 0 <= j < |roles| - 1 && TrimSpace(roles[1..][j]) == r;
        assert TrimSpace(roles[j + 1]) == r;
      }
      if HasRole(roles, r) {
        var j :| 0 <= j < |roles| && TrimSpace(roles[j]) == r;
        if j > 0 { assert TrimSpace(roles[1..][j - 1]) == r; }
      }
    }
  }

  lemma NothingLeft(doc: Object, visible: string -> bool, ns: string)
    requires IgnoresSpaces(visible) && !visible(ns)
    ensures LeavesNothingOf(Filtered(doc, visible), ns)
  {
    hide TrimSpace, SegmentFromPath, IgnoresSpaces, SplitMeta, FilteredMeta;
    FilterDataTwice(doc, FilteredMeta(SplitMeta(doc).1, visible), visible);
    assert visible(ns) <==> visible(TrimSpace(ns)) by { SpacesIgnored(visible, ns); }
    DefaultIsTrimmed();
    RootOfFiltered(SplitMeta(doc).1, visible);
    if '/' !in ns && TrimSpace(ns) != "" {
      forall f ensures ns + "/" + f !in FilteredAuthority(AuthorityRoot(SplitMeta(doc).1), visible) {
        SegmentOfPath(ns, f);
        SpacesIgnored(visible, SegmentFromPath(Path(ns, f)));
        assert ns + "/" + f == Path(ns, f);
      }
    }
  }

  lemma SpacesIgnored(visible: string -> bool, s: string)
    requires IgnoresSpaces(visible)
    ensures visible(s) <==> visible(TrimSpace(s))
  {
  }

  lemma RootOfFiltered(meta: Object, visible: string -> bool)
    ensures AuthorityRoot(FilteredMeta(meta, visible)).Keys == FilteredAuthority(AuthorityRoot(meta), visible).Keys
  {
  }

  // ---------- laws ----------

  /** Filtering twice is filtering once. */
  lemma FilterTwice(doc: Object, visible: string -> bool)
    ensures Filtered(Filtered(doc, visible), visible) == Filtered(doc, visible)
  {
    hide FilteredMeta, FilteredData, SplitMeta;
    var data, meta := FilteredData(doc, visible), FilteredMeta(SplitMeta(doc).1, visible);
    FilterDataTwice(doc, meta, visible);
    FilterMetaTwice(SplitMeta(doc).1, visible);
  }

  lemma FilterDataTwice(doc: Object, meta: Object, visible: string -> bool)
    ensures
      var data := FilteredData(doc, visible);
      FilteredData(WithMeta(data, meta), visible) == data && SplitMeta(WithMeta(data, meta)).1 == meta
    ensures META !in FilteredData(doc, visible)
  {
    hide SplitMeta;
    var data := FilteredData(doc, visible);
    var once := WithMeta(data, meta);
    assert META !in data;
    assert forall k :: k != META ==> (k in once <==> k in data);
    assert FilteredData(once, visible) == data;
    MetaOfStored(data, meta);
  }

  lemma MetaOfStored(data: Object, meta: Object)
    requires META !in data
    ensures SplitMeta(WithMeta(data, meta)).1 == meta
  {
    EmptyObject(meta);
  }

  lemma EmptyObject(m: Object)
    ensures m.Keys == {} <==> m == map[]
  {
  }

  lemma FilterMetaTwice(meta: Object, visible: string -> bool)
    ensures FilteredMeta(FilteredMeta(meta, visible), visible) == FilteredMeta(meta, visible)
  {
    hide SegmentFromPath;
    var root := AuthorityRoot(meta);
    var once := FilteredAuthority(root, visible);
    assert FilteredAuthority(once, visible) == once;
    assert AuthorityRoot(FilteredMeta(meta, visible)).Keys == once.Keys;
    if once.Keys != {} {
      assert AuthorityRoot(FilteredMeta(meta, visible)) == once;
    }
  }

  /** The part of a profile whose namespaces are visible. */
  function Restrict<V>(m: map<string, V>, visible: string -> bool): map<string, V> {
    map p | p in m && Cut(p).Found? && visible(Cut(p).before) :: m[p]
  }

  lemma FlatOfFiltered(data: Object, visible: string -> bool)
    requires WellFormed(data)
    ensures WellFormed(FilteredData(data, visible))
    ensures Flat(FilteredData(data, visible)) == Restrict(Flat(data), visible)
  {
    var filtered, flat := FilteredData(data, visible), Restrict(Flat(data), visible);
    forall k, p, v
      ensures Contributes(filtered, k, p, v) <==> Contributes(data, k, p, v) && visible(Cut(p).before)
      ensures Contributes(data, k, p, v) ==> Cut(p).Found?
    {
      if Contributes(data, k, p, v) { ContributedSegment(data, k, p, v); }
    }
    FilteredIsFlattened(data, filtered, flat, visible);
    FlattenedUnique(filtered, Flat(filtered), flat);
  }

  lemma ContributedSegment(data: Object, k: string, p: string, v: Json)
    requires WellFormed(data) && Contributes(data, k, p, v)
    ensures Cut(p).Found? && Cut(p).before == Segment(k, data[k])
  {
    if data[k].Obj? {
      var f :| f in data[k].fields && p == Path(k, f) && v == data[k].fields[f];
      CutJoin(k, f);
    } else {
      CutJoin(DEFAULT, k);
    }
  }

  lemma FilteredIsFlattened(data: Object, filtered: Object, flat: Object, visible: string -> bool)
    requires WellFormed(data) && flat == Restrict(Flat(data), visible)
    requires forall k, p, v :: Contributes(filtered, k, p, v) <==> Contributes(data, k, p, v) && visible(Cut(p).before)
    requires forall k, p, v :: Contributes(data, k, p, v) ==> Cut(p).Found?
    ensures IsFlattened(filtered, flat)
  {
    var all := Flat(data);
    forall k, p, v | Contributes(filtered, k, p, v) ensures p in flat {
      assert Contributes(data, k, p, v);
    }
    forall p | p in flat ensures exists k :: Contributes(filtered, k, p, flat[p]) {
      var k :| Contributes(data, k, p, all[p]);
      assert Contributes(filtered, k, p, flat[p]);
    }
  }

  /** The filter decides a segment and an authority path alike: spaces around a name do not count. */
  ghost predicate IgnoresSpaces(visible: string -> bool) {
    forall s :: visible(s) <==> visible(TrimSpace(s))
  }

  lemma PolicyIgnoresSpaces(policy: Policy, roles: set<string>)
    ensures IgnoresSpaces(VisibleTo(policy, roles))
  {
    forall s ensures TrimSpace(TrimSpace(s)) == TrimSpace(s) { TrimIdempotent(s); }
  }

  lemma {:induction false} TrimLeftOfPath(ns: string, f: string)
    ensures TrimLeft(Path(ns, f)) == Path(TrimLeft(ns), f)
  {
    var p := Path(ns, f);
    if ns == "" {
      assert p[0] == '/';
    } else if IsSpace(ns[0]) {
      assert p[0] == ns[0] && p[1..] == Path(ns[1..], f);
      TrimLeftOfPath(ns[1..], f);
    } else {
      assert p[0] == ns[0];
    }
  }

  lemma {:induction false} TrimRightOfPath(ns: string, f: string)
    ensures TrimRight(Path(ns, f)) == Path(ns, TrimRight(f))
  {
    var p := Path(ns, f);
    if f == "" {
      assert p[|p| - 1] == '/';
    } else if IsSpace(f[|f| - 1]) {
      assert p[|p| - 1] == f[|f| - 1] && p[..|p| - 1] == Path(ns, f[..|f| - 1]);
      TrimRightOfPath(ns, f[..|f| - 1]);
    } else {
      assert p[|p| - 1] == f[|f| - 1];
    }
  }

  lemma {:induction false} NoSlashAfterTrim(s: string)
    requires '/' !in s
    ensures '/' !in TrimLeft(s)
  {
    if s != "" && IsSpace(s[0]) { NoSlashAfterTrim(s[1..]); }
  }

  /** The authority segment of a path is its namespace, up to spaces, exactly when the namespace
      is not blank; a blank namespace is filed under "default". */
  lemma SegmentOfPath(ns: string, f: string)
    requires '/' !in ns
    ensures TrimSpace(SegmentFromPath(Path(ns, f))) == TrimSpace(ns) <==> TrimSpace(ns) != ""
  {
    hide Cut, TrimLeft, TrimRight, Path;
    SegmentIs(ns, f);
    BlankBothWays(ns);
    DefaultIsTrimmed();
    TrimLeftAgain(ns);
  }

  lemma DefaultIsTrimmed()
    ensures TrimSpace(DEFAULT) == DEFAULT
  {
  }

  lemma TrimLeftAgain(s: string)
    ensures TrimLeft(TrimLeft(s)) == TrimLeft(s)
  {
  }

  lemma SegmentIs(ns: string, f: string)
    requires '/' !in ns
    ensures SegmentFromPath(Path(ns, f)) == if TrimLeft(ns) == "" then DEFAULT else TrimLeft(ns)
  {
    hide Cut, TrimLeft, TrimRight;
    TrimLeftOfPath(ns, f);
    TrimRightOfPath(TrimLeft(ns), f);
    NoSlashAfterTrim(ns);
    CutJoin(TrimLeft(ns), TrimRight(f));
  }

  lemma BlankBothWays(s: string)
    ensures TrimSpace(s) == "" <==> TrimLeft(s) == ""
  {
    var t := TrimLeft(s);
    if t != "" { KeepsFirst(t); }
  }

  lemma {:induction false} KeepsFirst(t: string)
    requires t != "" && !IsSpace(t[0])
    ensures TrimRight(t) != ""
  {
    if |t| > 1 && IsSpace(t[|t| - 1]) { KeepsFirst(t[..|t| - 1]); }
  }

  /** Filtering a document restricts what readers see of it to the visible namespaces: values
      and sources alike. */
  lemma FilterRestricts(doc: Object, visible: string -> bool)
    requires StoredWellFormed(doc) && IgnoresSpaces(visible) && !visible("")
    ensures StoredWellFormed(Filtered(doc, visible))
    ensures View(Filtered(doc, visible)) == Restrict(View(doc), visible)
  {
    hide AuthorityOf, EffectiveSource, IgnoresSpaces, SegmentFromPath, FilteredMeta, Restrict, Flat;
    var (data, meta) := SplitMeta(doc);
    FlatOfFiltered(data, visible);
    assert FilteredData(doc, visible) == FilteredData(data, visible);
    SplitWithMeta(FilteredData(data, visible), FilteredMeta(meta, visible));
    var flat := Flat(data);
    RestrictView(flat, AuthorityOf(meta), AuthorityOf(FilteredMeta(meta, visible)), visible) by {
      SameAuthority(meta, visible);
    }
  }

  lemma RestrictView(flat: Object, auth: Sources, filtered: Sources, visible: string -> bool)
    requires forall p :: Cut(p).Found? && visible(Cut(p).before) ==> EffectiveSource(p, filtered) == EffectiveSource(p, auth)
    ensures ViewOf(Restrict(flat, visible), filtered) == Restrict(ViewOf(flat, auth), visible)
  {
    hide EffectiveSource, Cut;
  }

  lemma SameAuthority(meta: Object, visible: string -> bool)
    requires IgnoresSpaces(visible) && !visible("")
    ensures forall p :: Cut(p).Found? && visible(Cut(p).before) ==>
      EffectiveSource(p, AuthorityOf(FilteredMeta(meta, visible))) == EffectiveSource(p, AuthorityOf(meta))
  {
    hide TrimSpace, EntrySource;
    var root := AuthorityRoot(meta);
    assert AuthorityRoot(FilteredMeta(meta, visible)) == FilteredAuthority(root, visible);
    forall p | Cut(p).Found? && visible(Cut(p).before)
      ensures visible(SegmentFromPath(p))
    {
      SegmentOfPath(Cut(p).before, Cut(p).after);
      VisibleSegment(Cut(p).before, SegmentFromPath(p), visible);
    }
  }

  lemma VisibleSegment(ns: string, seg: string, visible: string -> bool)
    requires IgnoresSpaces(visible) && !visible("") && visible(ns)
    requires TrimSpace(seg) == TrimSpace(ns) <==> TrimSpace(ns) != ""
    ensures visible(seg)
  {
  }

  /** More roles never hide anything: what is seen with fewer roles is seen with more. */
  lemma FilterIsMonotone(doc: Object, policy: Policy, roles: set<string>, more: set<string>)
    requires StoredWellFormed(doc) && "" !in policy && roles <= more
    ensures
      var less, all := Filtered(doc, VisibleTo(policy, roles)), Filtered(doc, VisibleTo(policy, more));
      StoredWellFormed(less) && StoredWellFormed(all) &&
      View(less).Keys <= View(all).Keys <= View(doc).Keys &&
      (forall p :: p in View(less) ==> View(less)[p] == View(all)[p]) &&
      (forall p :: p in View(all) ==> View(all)[p] == View(doc)[p])
  {
    hide TrimSpace, View, Filtered;
    PolicyFilterRestricts(doc, policy, roles);
    PolicyFilterRestricts(doc, policy, more);
  }

  lemma PolicyFilterRestricts(doc: Object, policy: Policy, roles: set<string>)
    requires StoredWellFormed(doc) && "" !in policy
    ensures StoredWellFormed(Filtered(doc, VisibleTo(policy, roles)))
    ensures View(Filtered(doc, VisibleTo(policy, roles))) == Restrict(View(doc), VisibleTo(policy, roles))
  {
    PolicyIgnoresSpaces(policy, roles);
    assert !VisibleTo(policy, roles)("");
    FilterRestricts(doc, VisibleTo(policy, roles));
  }

  lemma RestrictMerge(t: Profile, s: Profile, visible: string -> bool)
    ensures Restrict(MergeView(t, s), visible) == MergeView(Restrict(t, visible), Restrict(s, visible))
  {
    hide Rank, Cut;
  }

  /** Filtering commutes with merging duplicates: a reader sees the same whether the merged
      profile is filtered or the filtered profiles are merged. */
  lemma FilterCommutesWithMerge(target: Object, source: Object, merged: Object, policy: Policy, roles: set<string>)
    requires RegularPair(target, source) && DuplicateOutcome(target, source, merged) && "" !in policy
    ensures
      var visible := VisibleTo(policy, roles);
      StoredWellFormed(Filtered(merged, visible)) &&
      StoredWellFormed(Filtered(target, visible)) && StoredWellFormed(Filtered(source, visible)) &&
      View(Filtered(merged, visible)) == MergeView(View(Filtered(target, visible)), View(Filtered(source, visible)))
  {
    hide View, Filtered, Restrict, VisibleTo, DuplicateOutcome;
    DuplicateMergeIsMaximum(target, source, merged);
    PolicyFilterRestricts(target, policy, roles);
    PolicyFilterRestricts(source, policy, roles);
    PolicyFilterRestricts(merged, policy, roles);
    RestrictMerge(View(target), View(source), VisibleTo(policy, roles));
  }
}
