/** What the whole history of a profile keeps, and what a run of updates on documents gives. */
module History {
  import opened Lists
  import opened Text
  import opened JsonValues
  import opened Authority
  import opened DocumentPaths
  import opened ProfileViews
  import opened AuthorityMerge
  import opened Convergence

  // ---------- manual resolution ----------

  const MANUAL := "manual"

  ghost predicate ResolveOutcome(doc: Object, path: string, value: Json, out: Object) {
    exists flat, data :: ResolveOutcomeVia(doc, path, value, out, flat, data)
  }

  ghost predicate ResolveOutcomeVia(doc: Object, path: string, value: Json, out: Object, flat: Object, data: Object) {
    IsFlattened(SplitMeta(doc).0, flat) &&
    IsUnflattened(flat[path := value], data) &&
    out == WithMeta(data, SetAuthorityPath(SplitMeta(doc).1, path, MANUAL))
  }

  /** The document part of resolving a conflict by hand. */
  method ResolveDocument(doc: Object, ns: string, fieldKey: string, value: Json) returns (out: Object)
    ensures ResolveOutcome(doc, JoinNsField(ns, fieldKey), value, out)
  {
    var (data, meta) := SplitMeta(doc);
    var flat := FlattenDocument(data);
    var path := JoinNsField(ns, fieldKey);
    var newData := UnflattenDocument(flat[path := value]);
    out := WithMeta(newData, SetAuthorityPath(meta, path, MANUAL));
    assert ResolveOutcomeVia(doc, path, value, out, flat, newData);
  }

  /** The resolution can be stored at the path next to the fields of `doc`: a root field takes no
      object, the metadata key is not used, and no name becomes both a root field and a
      namespace. */
  ghost predicate RegularResolution(doc: Object, path: string, value: Json) {
    StoredWellFormed(doc) && WellFormedFlat(Flat(SplitMeta(doc).0)[path := value])
  }

  /** A resolution writes the conflicting path, with the source "manual", and no other, exactly
      when it is regular. */
  lemma ResolutionWritesThePath(doc: Object, path: string, value: Json, out: Object, flat: Object, data: Object, back: Object)
    requires StoredWellFormed(doc) && ResolveOutcomeVia(doc, path, value, out, flat, data)
    requires IsFlattened(data, back)
    ensures back == Flat(SplitMeta(doc).0)[path := value] <==> RegularResolution(doc, path, value)
    ensures RegularResolution(doc, path, value) ==>
      StoredWellFormed(out) && View(out) == View(doc)[path := Entry(value, MANUAL)]
  {
    FlattenedUnique(SplitMeta(doc).0, flat, Flat(SplitMeta(doc).0));
    RoundTripFlat(flat[path := value], data, back);
    if RegularResolution(doc, path, value) {
      ResolutionView(flat, SplitMeta(doc).1, path, value, data);
    }
  }

  lemma ResolutionView(flat: Object, meta: Object, path: string, value: Json, data: Object)
    requires WellFormedFlat(flat[path := value]) && IsUnflattened(flat[path := value], data)
    ensures
      var out := WithMeta(data, SetAuthorityPath(meta, path, MANUAL));
      StoredWellFormed(out) && View(out) == ViewOf(flat, AuthorityOf(meta))[path := Entry(value, MANUAL)]
  {
    hide AuthorityOf, SetAuthorityPath, SetAuthorityPaths, View, WellFormedFlat, IsUnflattened, WithMeta, EffectiveSource, ViewOf;
    var sources: Sources := map[path := MANUAL];
    var values: Object := map[path := value];
    assert flat[path := value] == flat + values;
    OneSource(meta, path, MANUAL);
    ManualAlone(path);
    SetThenRead(meta, sources);
    StoredView(flat + values, data, SetAuthorityPaths(meta, sources));
    ViewAfterWriting(flat, AuthorityOf(meta), values, sources);
    OneEntry(ViewOf(flat, AuthorityOf(meta)), path, value);
  }

  lemma ManualAlone(path: string)
    ensures TrimSpace(MANUAL) == MANUAL && EffectiveSource(path, map[path := MANUAL]) == MANUAL
  {
  }

  lemma OneEntry(v: Profile, path: string, value: Json)
    ensures v + EntriesOf(map[path := value], map[path := MANUAL]) == v[path := Entry(value, MANUAL)]
  {
  }

  lemma OneSource(meta: Object, path: string, source: string)
    ensures SetAuthorityPath(meta, path, source) == SetAuthorityPaths(meta, map[path := source])
  {
    assert path in map[path := source];
    var entries := Entries(map[path := source]);
    assert AuthorityRoot(meta) + entries == AuthorityRoot(meta)[path := SourceEntry(source)];
  }

  // ---------- what every step keeps ----------

  /** No path of `v` is missing from `v'`, and none has a weaker source there. */
  predicate Succeeds(v: Profile, v': Profile) {
    v.Keys <= v'.Keys && forall p :: p in v ==> Rank(v'[p]) >= Rank(v[p])
  }

  lemma SucceedsTransitive(a: Profile, b: Profile, c: Profile)
    requires Succeeds(a, b) && Succeeds(b, c)
    ensures Succeeds(a, c)
  {
  }

  /** A later version of a profile, by one operation on it. */
  datatype Operation =
    | Update(values: Object, source: string)
    | Resolve(path: string, value: Json)
    | Upgrade
    | MergeFrom(other: Profile)

  function Perform(v: Profile, op: Operation): Profile {
    match op
    case Update(values, source) => UpdateView(v, values, source)
    case Resolve(path, value) => v[path := Entry(value, MANUAL)]
    case Upgrade => v
    case MergeFrom(other) => MergeView(v, other)
  }

  function PerformAll(v: Profile, ops: seq<Operation>): Profile
    decreases |ops|
  {
    if ops == [] then v else PerformAll(Perform(v, ops[0]), ops[1..])
  }

  lemma StepSucceeds(v: Profile, op: Operation)
    ensures Succeeds(v, Perform(v, op))
  {
    hide Rank, UpdateView, MergeView;
    match op
    case Update(values, source) => UpdateSucceeds(v, values, source);
    case Resolve(path, value) => ResolveSucceeds(v, path, value);
    case Upgrade =>
    case MergeFrom(other) => MergeSucceeds(v, other);
  }

  lemma ResolveSucceeds(v: Profile, path: string, value: Json)
    ensures Succeeds(v, v[path := Entry(value, MANUAL)])
  {
    assert Canonical(MANUAL) == MANUAL;
    ManualIsStrongest(MANUAL);
    if path in v { ManualIsStrongest(v[path].source); }
  }

  lemma UpdateSucceeds(v: Profile, values: Object, source: string)
    ensures Succeeds(v, UpdateView(v, values, source))
  {
    hide MergeFieldAuthority, PriorityOf, Canonical, UpdateView, OwnedBy;
    forall p | p in v ensures p in UpdateView(v, values, source) && Rank(UpdateView(v, values, source)[p]) >= Rank(v[p]) {
      UpdateByPath(v, values, source, p);
      if OwnedBy(v[p], source) { OwnedIsAsStrong(v[p], source); }
    }
  }

  lemma MergeSucceeds(v: Profile, other: Profile)
    ensures Succeeds(v, MergeView(v, other))
  {
    hide Rank;
  }

  /** Over any history no path disappears and no path falls to a weaker source. */
  lemma {:induction false} HistorySucceeds(v: Profile, ops: seq<Operation>)
    ensures Succeeds(v, PerformAll(v, ops))
    decreases |ops|
  {
    if ops != [] {
      StepSucceeds(v, ops[0]);
      HistorySucceeds(Perform(v, ops[0]), ops[1..]);
      SucceedsTransitive(v, Perform(v, ops[0]), PerformAll(v, ops));
    }
  }

  /** The operation is no manual decision about `path`. */
  predicate NotManualAt(op: Operation, path: string) {
    (op.Update? && path in op.values ==> Canonical(op.source) != MANUAL) &&
    (op.Resolve? ==> op.path != path)
  }

  /** A value pinned by hand survives every history without another manual decision about it. */
  lemma {:induction false} PinnedValueSurvives(v: Profile, ops: seq<Operation>, path: string)
    requires path in v && Rank(v[path]) == MANUAL_PRIORITY
    requires forall op :: op in ops ==> NotManualAt(op, path)
    ensures path in PerformAll(v, ops) && PerformAll(v, ops)[path] == v[path]
    decreases |ops|
  {
    if ops != [] {
      PinnedByOne(v, ops[0], path);
      PinnedValueSurvives(Perform(v, ops[0]), ops[1..], path);
    }
  }

  lemma PinnedByOne(v: Profile, op: Operation, path: string)
    requires path in v && Rank(v[path]) == MANUAL_PRIORITY && NotManualAt(op, path)
    ensures path in Perform(v, op) && Perform(v, op)[path] == v[path]
  {
    hide MergeFieldAuthority, PriorityOf;
    match op
    case Update(values, source) =>
      ManualIsStrongest(source);
      if path in values { DecisionMeaning(v[path], values[path], source); }
    case Resolve(_, _) =>
    case Upgrade =>
    case MergeFrom(other) =>
      if path in other { ManualIsStrongest(other[path].source); }
  }

  // ---------- runs of updates on documents ----------

  datatype Request = Request(document: Object, source: string)

  /** `docs` are the documents that the updates `rs` leave behind, one after another, starting
      from the empty document. */
  ghost predicate IsUpdateRun(docs: seq<Object>, rs: seq<Request>) {
    |docs| == |rs| + 1 && docs[0] == map[] &&
    forall i :: 0 <= i < |rs| ==> IsUpdateStep(docs[i], rs[i], docs[i + 1])
  }

  ghost predicate IsUpdateStep(doc: Object, r: Request, out: Object) {
    exists conflicts, changed :: ApplyOutcome(doc, r.document, r.source, out, conflicts, changed)
  }

  ghost function FlatOf(doc: Object): Object {
    Flat(SplitMeta(doc).0)
  }

  /** The document contributes no path twice with different values, and its paths can be stored. */
  ghost predicate IsPlain(doc: Object) {
    (forall inc :: IsFlattened(SplitMeta(doc).0, inc) ==> inc == FlatOf(doc)) && WellFormedFlat(FlatOf(doc))
  }

  /** The paths that the updates write. */
  ghost function PathsOf(rs: seq<Request>): set<string> {
    set r, p | r in rs && p in FlatOf(r.document) :: p
  }

  ghost predicate AllRegular(rs: seq<Request>) {
    (forall r :: r in rs ==> IsPlain(r.document)) && NoClash(PathsOf(rs))
  }

  ghost function WriteOf(r: Request): Write {
    Write(FlatOf(r.document), WriteSource(r.source))
  }

  ghost function WritesOf(rs: seq<Request>): seq<Write> {
    seq(|rs|, i requires 0 <= i < |rs| => WriteOf(rs[i]))
  }

  lemma {:induction false} ApplyOneMore(v: Profile, ws: seq<Write>, w: Write)
    ensures ApplyAll(v, ws + [w]) == ApplyWrite(ApplyAll(v, ws), w)
    decreases |ws|
  {
    if ws == [] {
      assert [] + [w] == [w];
      assert [w][1..] == [];
    } else {
      assert (ws + [w])[0] == ws[0] && (ws + [w])[1..] == ws[1..] + [w];
      ApplyOneMore(ApplyWrite(v, ws[0]), ws[1..], w);
    }
  }

  lemma EmptyView()
    ensures IsCanonical(map[]) && FlatOf(map[]).Keys == {} && View(map[]).Keys == {}
  {
  }

  lemma EmptyProfile(v: Profile)
    requires v.Keys == {}
    ensures v == map[]
  {
  }

  // ---------- the document is what readers see of it ----------

  function SourcesOf(v: Profile): Sources {
    map p | p in v :: v[p].source
  }

  /** The metadata holds the source of each path and nothing else. */
  ghost predicate IsCanonical(doc: Object) {
    StoredWellFormed(doc) && doc == WithMeta(SplitMeta(doc).0, SplitMeta(doc).1) &&
    SplitMeta(doc).1 == SetAuthorityPaths(map[], SourcesOf(View(doc)))
  }

  /** Two such documents that look alike are equal, data and authority map. */
  lemma CanonicalUnique(a: Object, b: Object)
    requires IsCanonical(a) && IsCanonical(b) && View(a) == View(b)
    ensures a == b
  {
    hide WellFormed, SetAuthorityPaths, AuthorityOf, EffectiveSource;
    var (dataA, dataB) := (SplitMeta(a).0, SplitMeta(b).0);
    SameFlat(Flat(dataA), AuthorityOf(SplitMeta(a).1), Flat(dataB), AuthorityOf(SplitMeta(b).1));
    var back := UnflattenedExists(Flat(dataA));
    RoundTripDocument(dataA, Flat(dataA), back);
    RoundTripDocument(dataB, Flat(dataB), back);
  }

  lemma SameFlat(flat: Object, auth: Sources, flat': Object, auth': Sources)
    requires ViewOf(flat, auth) == ViewOf(flat', auth')
    ensures flat == flat'
  {
    hide EffectiveSource;
    var v, v' := ViewOf(flat, auth), ViewOf(flat', auth');
    assert forall p :: p in flat <==> p in v;
    assert forall p :: p in flat' <==> p in v';
    forall p | p in flat ensures flat[p] == flat'[p] {
      assert v[p].value == flat[p] && v'[p].value == flat'[p];
    }
  }

  lemma SetMore(meta: Object, sources: Sources, more: Sources)
    ensures SetAuthorityPaths(SetAuthorityPaths(meta, sources), more) == SetAuthorityPaths(meta, sources + more)
  {
    hide Entries, AuthorityRoot;
    if sources.Keys == {} {
      NothingBefore(sources, more);
    } else if more.Keys == {} {
      NothingAfter(sources, more);
    } else {
      RootAfter(meta, sources);
      EntriesMore(sources, more);
      RootsJoin(AuthorityRoot(meta), Entries(sources), Entries(more));
      assert (sources + more).Keys != {} by { assert sources.Keys <= (sources + more).Keys; }
    }
  }

  lemma NothingBefore(sources: Sources, more: Sources)
    requires sources.Keys == {}
    ensures sources + more == more
  {
  }

  lemma NothingAfter(sources: Sources, more: Sources)
    requires more.Keys == {}
    ensures sources + more == sources
  {
  }

  lemma RootAfter(meta: Object, sources: Sources)
    requires sources.Keys != {}
    ensures AuthorityRoot(SetAuthorityPaths(meta, sources)) == AuthorityRoot(meta) + Entries(sources)
  {
    hide Entries;
  }

  lemma EntriesMore(sources: Sources, more: Sources)
    ensures Entries(sources) + Entries(more) == Entries(sources + more)
  {
    hide SourceEntry;
  }

  lemma RootsJoin(a: Object, b: Object, c: Object)
    ensures a + b + c == a + (b + c)
  {
  }

  /** A regular update keeps it so. */
  lemma UpdateKeepsCanonical(doc: Object, incoming: Object, source: string, out: Object,
                             conflicts: seq<ConflictCandidate>, changed: bool, inc: Object)
    requires IsCanonical(doc) && RegularUpdate(doc, inc)
    requires OutcomeFrom(doc, incoming, source, out, conflicts, changed, inc)
    ensures IsCanonical(out)
  {
    hide WellFormed, NoClash, View, UpdateView, IsFlattened, IsUnflattened, ListsConflicts, SetAuthorityPaths, WellFormedFlat, AuthorityOf, Written, AllFrom, WriteSource, Decide;
    UpdateIsPointwise(doc, incoming, source, out, conflicts, changed, inc);
    var cur, data, order :| ApplyOutcomeVia(doc, incoming, source, out, conflicts, changed, cur, inc, data, order);
    CurrentFlat(doc, cur);
    var meta, from := SplitMeta(doc).1, WriteSource(source);
    var written := Written(inc, Decide(cur, AuthorityOf(meta), inc, from));
    StoredSources(cur, AuthorityOf(meta), inc, from, View(doc)) by { ViewIs(doc); }
    SetMore(map[], SourcesOf(View(doc)), AllFrom(written, from));
    DataIsStored(cur, meta, inc, from, data);
    SplitWithMeta(data, SetAuthorityPaths(meta, AllFrom(written, from)));
  }

  lemma ViewIs(doc: Object)
    requires StoredWellFormed(doc)
    ensures View(doc) == ViewOf(FlatOf(doc), AuthorityOf(SplitMeta(doc).1))
  {
  }

  lemma DataIsStored(cur: Object, meta: Object, inc: Object, source: string, data: Object)
    requires WellFormedFlat(cur) && WellFormedFlat(inc) && NoClash(cur.Keys + inc.Keys)
    requires IsUnflattened(MergedFlat(cur, AuthorityOf(meta), inc, source), data)
    ensures WellFormed(data)
  {
    hide AuthorityOf, Decide, IsUnflattened;
    MergedWellFormed(cur, AuthorityOf(meta), inc, source);
    UnflattenedWellFormed(MergedFlat(cur, AuthorityOf(meta), inc, source), data);
  }

  lemma MergedWellFormed(cur: Object, auth: Sources, inc: Object, source: string)
    requires WellFormedFlat(cur) && WellFormedFlat(inc) && NoClash(cur.Keys + inc.Keys)
    ensures WellFormedFlat(MergedFlat(cur, auth, inc, source))
  {
    ClashDecides(cur, auth, inc, source);
  }

  lemma StoredSources(cur: Object, auth: Sources, inc: Object, source: string, v: Profile)
    requires v == ViewOf(cur, auth)
    ensures
      var written := Written(inc, Decide(cur, auth, inc, source));
      SourcesOf(UpdateView(v, inc, source)) == SourcesOf(v) + AllFrom(written, source)
  {
    hide Decide, ViewOf, UpdateView, Won, MergeFieldAuthority, EffectiveSource;
    var written := Written(inc, Decide(cur, auth, inc, source));
    DecisionsAgree(cur, auth, inc, source);
    UpdateViewIs(v, inc, source);
    SourcesOfSum(v, written, AllFrom(written, source));
  }

  lemma UpdateViewIs(v: Profile, inc: Object, source: string)
    ensures UpdateView(v, inc, source) == v + Won(v, inc, source)
  {
  }

  lemma SourcesOfSum(v: Profile, written: Object, sources: Sources)
    requires written.Keys == sources.Keys
    ensures SourcesOf(v + EntriesOf(written, sources)) == SourcesOf(v) + sources
  {
  }

  // ---------- runs in different orders ----------

  /** A run of regular updates leaves the profile that applying its writes in turn gives, and a
      document that holds nothing else. */
  lemma {:induction false} RunAppliesWrites(docs: seq<Object>, rs: seq<Request>)
    requires IsUpdateRun(docs, rs) && AllRegular(rs)
    ensures IsCanonical(docs[|rs|]) && FlatOf(docs[|rs|]).Keys <= PathsOf(rs)
    ensures View(docs[|rs|]) == ApplyAll(map[], WritesOf(rs))
    decreases |rs|
  {
    hide View, FlatOf, WellFormed, WriteSource, UpdateView, ApplyOutcome, IsCanonical, IsPlain;
    if rs == [] {
      EmptyView();
      EmptyProfile(View(map[]));
    } else {
      var n := |rs| - 1;
      var rest := rs[..n];
      assert rest + [rs[n]] == rs;
      RunAppliesWrites(docs[..n + 1], rest);
      assert WritesOf(rs) == WritesOf(rest) + [WriteOf(rs[n])];
      ApplyOneMore(map[], WritesOf(rest), WriteOf(rs[n]));
      assert rs[n] in rs && FlatOf(rs[n].document).Keys <= PathsOf(rs);
      RunStep(docs[n], rs[n], docs[n + 1], PathsOf(rs));
    }
  }

  lemma RunStep(doc: Object, r: Request, out: Object, paths: set<string>)
    requires IsCanonical(doc) && IsPlain(r.document) && IsUpdateStep(doc, r, out)
    requires NoClash(paths) && FlatOf(doc).Keys <= paths && FlatOf(r.document).Keys <= paths
    ensures IsCanonical(out) && FlatOf(out).Keys <= paths
    ensures View(out) == ApplyWrite(View(doc), WriteOf(r))
  {
    hide ListsConflicts, IsUnflattened, WellFormed, WellFormedFlat, View, SetAuthorityPaths, Decide;
    var conflicts, changed :| ApplyOutcome(doc, r.document, r.source, out, conflicts, changed);
    var cur, inc, data, order :| ApplyOutcomeVia(doc, r.document, r.source, out, conflicts, changed, cur, inc, data, order);
    assert OutcomeFrom(doc, r.document, r.source, out, conflicts, changed, inc);
    assert inc == FlatOf(r.document);
    UpdateIsPointwise(doc, r.document, r.source, out, conflicts, changed, inc);
    UpdateKeepsCanonical(doc, r.document, r.source, out, conflicts, changed, inc);
    ViewKeys(doc);
    ViewKeys(out);
  }

  lemma ViewKeys(doc: Object)
    requires StoredWellFormed(doc)
    ensures View(doc).Keys == FlatOf(doc).Keys
  {
  }

  /** Every run of the same updates, in any order, ends with the same document. */
  ghost predicate RunsAgree(rs: seq<Request>) {
    forall docs, rs', docs', rs'' ::
      multiset(rs') == multiset(rs) && multiset(rs'') == multiset(rs) && IsUpdateRun(docs, rs') && IsUpdateRun(docs', rs'') ==>
      docs[|rs'|] == docs'[|rs''|]
  }

  /** Every run of the same updates ends with the strongest write at each path. */
  ghost predicate RunsEndOnTop(rs: seq<Request>) {
    forall docs, rs' :: multiset(rs') == multiset(rs) && IsUpdateRun(docs, rs') ==>
      StoredWellFormed(docs[|rs'|]) && HoldsTopOfEach(View(docs[|rs'|]), WritesOf(rs))
  }

  lemma CanonicalIsStored(doc: Object)
    requires IsCanonical(doc)
    ensures StoredWellFormed(doc)
  {
  }

  lemma SameRequests(rs: seq<Request>, rs': seq<Request>)
    requires multiset(rs') == multiset(rs) && AllRegular(rs)
    ensures AllRegular(rs') && multiset(WritesOf(rs')) == multiset(WritesOf(rs))
  {
    hide IsPlain, NoClash, FlatOf, WriteOf;
    assert forall r :: r in rs' <==> r in multiset(rs');
    assert forall r :: r in rs <==> r in multiset(rs);
    assert PathsOf(rs') == PathsOf(rs);
    SameWrites(rs, rs');
  }

  function Without<T>(s: seq<T>, i: int): seq<T>
    requires 0 <= i < |s|
  {
    s[..i] + s[i + 1..]
  }

  lemma WithoutOne(rs: seq<Request>, i: int)
    requires 0 <= i < |rs|
    ensures multiset(rs) == multiset{rs[i]} + multiset(Without(rs, i)) && |Without(rs, i)| == |rs| - 1
    ensures WritesOf(Without(rs, i)) == Without(WritesOf(rs), i)
  {
    hide WriteOf;
    assert rs == rs[..i] + [rs[i]] + rs[i + 1..];
  }

  lemma WriteWithoutOne(ws: seq<Write>, i: int)
    requires 0 <= i < |ws|
    ensures multiset(ws) == multiset{ws[i]} + multiset(Without(ws, i))
  {
    assert ws == ws[..i] + [ws[i]] + ws[i + 1..];
  }

  lemma {:induction false} SameWrites(rs: seq<Request>, rs': seq<Request>)
    requires multiset(rs') == multiset(rs)
    ensures multiset(WritesOf(rs')) == multiset(WritesOf(rs))
    decreases |rs|
  {
    hide WriteOf, Without;
    assert |rs| == |multiset(rs)| && |rs'| == |multiset(rs')|;
    if rs != [] {
      assert rs[0] in multiset(rs');
      var i :| 0 <= i < |rs'| && rs'[i] == rs[0];
      WithoutOne(rs, 0);
      WithoutOne(rs', i);
      assert multiset(Without(rs', i)) == multiset(rs) - multiset{rs[0]} == multiset(Without(rs, 0));
      SameWrites(Without(rs, 0), Without(rs', i));
      WriteWithoutOne(WritesOf(rs), 0);
      WriteWithoutOne(WritesOf(rs'), i);
    }
  }

  /** Requests whose writes are those of `rs` in the order `ws`. */
  lemma {:induction false} Reorder(rs: seq<Request>, ws: seq<Write>) returns (rs': seq<Request>)
    requires multiset(ws) == multiset(WritesOf(rs))
    ensures multiset(rs') == multiset(rs) && WritesOf(rs') == ws
    decreases |ws|
  {
    hide WriteOf, Without;
    var all := WritesOf(rs);
    assert |ws| == |multiset(ws)| && |all| == |multiset(all)|;
    if ws == [] {
      rs' := [];
    } else {
      assert ws[0] in multiset(all);
      var i :| 0 <= i < |all| && all[i] == ws[0];
      WithoutOne(rs, i);
      WriteWithoutOne(all, i);
      assert ws == [ws[0]] + ws[1..];
      assert multiset(ws[1..]) == multiset(ws) - multiset{ws[0]} == multiset(Without(all, i));
      var more := Reorder(Without(rs, i), ws[1..]);
      rs' := [rs[i]] + more;
      FirstWrite(rs[i], more);
    }
  }

  lemma FirstWrite(r: Request, more: seq<Request>)
    ensures WritesOf([r] + more) == [WriteOf(r)] + WritesOf(more)
  {
  }

  lemma {:induction false} Listing(s: set<string>) returns (order: seq<string>)
    ensures Distinct(order) && forall p :: p in order <==> p in s
  {
    if s == {} {
      order := [];
    } else {
      var p :| p in s;
      var rest := Listing(s - {p});
      order := rest + [p];
      forall i | 0 <= i < |rest| ensures order[i] != p { assert rest[i] in rest; }
      forall q ensures q in order <==> q in s { assert q in order <==> q in rest || q == p; }
    }
  }

  lemma UpdateExists(doc: Object, r: Request) returns (out: Object)
    ensures IsUpdateStep(doc, r, out)
  {
    hide IsFlattened, IsUnflattened, AuthorityOf, SetAuthorityPaths, MergeFieldAuthority, EffectiveSource, WriteSource;
    var cur := FlattenedExists(SplitMeta(doc).0);
    var inc := FlattenedExists(SplitMeta(r.document).0);
    var meta, source := SplitMeta(doc).1, WriteSource(r.source);
    var auth := AuthorityOf(meta);
    var ds := Decide(cur, auth, inc, source);
    var data := UnflattenedExists(MergedFlat(cur, auth, inc, source));
    var order := Listing(ConflictPaths(ds));
    var conflicts := ListConflicts(order, cur, auth, inc, source);
    out := WithMeta(data, SetAuthorityPaths(meta, AllFrom(Written(inc, ds), source)));
    var changed := Written(inc, ds).Keys != {};
    assert ApplyOutcomeVia(doc, r.document, r.source, out, conflicts, changed, cur, inc, data, order);
    assert ApplyOutcome(doc, r.document, r.source, out, conflicts, changed);
  }

  lemma ListConflicts(order: seq<string>, cur: Object, auth: Sources, inc: Object, source: string) returns (conflicts: seq<ConflictCandidate>)
    requires Distinct(order)
    requires forall p :: p in order <==> p in ConflictPaths(Decide(cur, auth, inc, source))
    ensures ListsConflicts(order, conflicts, cur, auth, inc, source, Decide(cur, auth, inc, source))
  {
    hide MergeFieldAuthority, EffectiveSource;
    var ds := Decide(cur, auth, inc, source);
    assert forall p :: p in order ==> p in cur && p in inc && ds[p].Conflict?;
    conflicts := seq(|order|, i requires 0 <= i < |order| =>
      assert order[i] in order; CandidateAt(cur, auth, order[i], inc[order[i]], source, ds[order[i]].reason));
  }

  lemma {:induction false} RunExists(rs: seq<Request>) returns (docs: seq<Object>)
    ensures IsUpdateRun(docs, rs)
    decreases |rs|
  {
    hide IsUpdateStep;
    if rs == [] {
      docs := [map[]];
    } else {
      var n := |rs| - 1;
      var before := RunExists(rs[..n]);
      var out := UpdateExists(before[n], rs[n]);
      docs := before + [out];
    }
  }

  /** Regular updates from sources of pairwise different priorities end with the same document in
      every order, data and authority map, exactly when at each path the strongest of them brings
      a value of its own. */
  lemma RunsConverge(rs: seq<Request>)
    requires AllRegular(rs) && DistinctStrengths(WritesOf(rs))
    ensures RunsAgree(rs) <==> TopValuesUnshared(WritesOf(rs))
    ensures TopValuesUnshared(WritesOf(rs)) ==> RunsEndOnTop(rs)
  {
    hide AllRegular, IsUpdateStep, TopValuesUnshared, HoldsTopOfEach, DistinctStrengths, View, IsCanonical, FlatOf, WritesOf;
    var ws := WritesOf(rs);
    UpdatesConverge(ws);
    if TopValuesUnshared(ws) {
      forall docs, rs', docs', rs'' |
        multiset(rs') == multiset(rs) && multiset(rs'') == multiset(rs) && IsUpdateRun(docs, rs') && IsUpdateRun(docs', rs'')
        ensures docs[|rs'|] == docs'[|rs''|]
      {
        RunEndsAlike(rs, docs, rs');
        RunEndsAlike(rs, docs', rs'');
        CanonicalUnique(docs[|rs'|], docs'[|rs''|]);
      }
      forall docs, rs' | multiset(rs') == multiset(rs) && IsUpdateRun(docs, rs')
        ensures StoredWellFormed(docs[|rs'|]) && HoldsTopOfEach(View(docs[|rs'|]), ws)
      {
        RunEndsAlike(rs, docs, rs');
        CanonicalIsStored(docs[|rs'|]);
      }
    } else {
      var vs :| multiset(vs) == multiset(ws) && ApplyAll(map[], vs) != ApplyAll(map[], ws);
      var rs' := Reorder(rs, vs);
      var docs := RunExists(rs);
      var docs' := RunExists(rs');
      SameRequests(rs, rs');
      RunAppliesWrites(docs, rs);
      RunAppliesWrites(docs', rs');
      assert docs[|rs|] != docs'[|rs'|];
      Disagree(rs, docs, rs, docs', rs');
    }
  }

  lemma Disagree(rs: seq<Request>, docs: seq<Object>, rs': seq<Request>, docs': seq<Object>, rs'': seq<Request>)
    requires multiset(rs') == multiset(rs) && multiset(rs'') == multiset(rs)
    requires IsUpdateRun(docs, rs') && IsUpdateRun(docs', rs'') && docs[|rs'|] != docs'[|rs''|]
    ensures !RunsAgree(rs)
  {
    hide IsUpdateStep;
  }

  lemma RunEndsAlike(rs: seq<Request>, docs: seq<Object>, rs': seq<Request>)
    requires AllRegular(rs) && OrderIndependent(WritesOf(rs)) && multiset(rs') == multiset(rs) && IsUpdateRun(docs, rs')
    ensures IsCanonical(docs[|rs'|]) && View(docs[|rs'|]) == ApplyAll(map[], WritesOf(rs))
  {
    hide AllRegular, IsUpdateStep, View, IsCanonical, FlatOf, WritesOf;
    SameRequests(rs, rs');
    RunAppliesWrites(docs, rs');
  }
}
