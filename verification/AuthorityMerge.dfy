/** Merging an incoming document into a stored one, and one profile into its duplicate. */
module AuthorityMerge {
  import opened Text
  import opened JsonValues
  import opened Maps
  import opened Lists
  import opened Authority
  import opened DocumentPaths
  import opened ProfileViews

  type Sources = map<string, string>

  function EffectiveSource(path: string, auth: Sources): string {
    var s := if path in auth then TrimSpace(auth[path]) else "";
    if s == "" then DEFAULT_SOURCE else s
  }

  /** The source under which a write is recorded. */
  function WriteSource(source: string): string {
    var s := TrimSpace(source);
    if s == "" then DEFAULT_SOURCE else s
  }

  lemma SourcesAreTrimmed(path: string, auth: Sources, source: string)
    ensures EffectiveSource(path, auth) != "" && TrimSpace(EffectiveSource(path, auth)) == EffectiveSource(path, auth)
    ensures WriteSource(source) != "" && TrimSpace(WriteSource(source)) == WriteSource(source)
  {
  }

  /** A write without a source counts as one of "api"; else the source is the one given. */
  lemma WriteSourceMeans(source: string)
    ensures Canonical(WriteSource(source)) == if TrimSpace(source) == "" then "api" else Canonical(source)
  {
    TrimmedIsSameSource(source);
    SmallLetters("api");
  }

  datatype ConflictCandidate = ConflictCandidate(
    ns: string, fieldKey: string,
    existing: Json, incoming: Json,
    existingSource: string, incomingSource: string,
    reason: string)

  // ---------- what an update does to each path ----------

  type Decisions = map<string, Decision>

  function DecisionAt(cur: Object, auth: Sources, path: string, incoming: Json, source: string): Decision {
    if path !in cur then Apply
    else MergeFieldAuthority(cur[path], incoming, EffectiveSource(path, auth), source)
  }

  /** The decision on each incoming path. */
  function Decide(cur: Object, auth: Sources, inc: Object, source: string): Decisions {
    map p | p in inc :: DecisionAt(cur, auth, p, inc[p], source)
  }

  /** The incoming values that are applied. */
  function Written(inc: Object, ds: Decisions): Object {
    map p | p in inc && p in ds && ds[p].Apply? :: inc[p]
  }

  function ConflictPaths(ds: Decisions): set<string> {
    set p | p in ds && ds[p].Conflict?
  }

  /** The flat document after the update. */
  function MergedFlat(cur: Object, auth: Sources, inc: Object, source: string): Object {
    cur + Written(inc, Decide(cur, auth, inc, source))
  }

  /** `source` at each path of `flat`. */
  function AllFrom(flat: Object, source: string): Sources {
    map p | p in flat :: source
  }

  lemma AllFromOneMore(flat: Object, source: string, path: string, v: Json)
    ensures AllFrom(flat[path := v], source) == AllFrom(flat, source)[path := source]
  {
  }

  function CandidateAt(cur: Object, auth: Sources, path: string, incoming: Json, source: string, reason: string): ConflictCandidate
    requires path in cur
  {
    var (ns, field) := SplitNsField(path);
    ConflictCandidate(ns, field, cur[path], incoming, EffectiveSource(path, auth), source, reason)
  }

  /** One candidate for each conflicting path, in the order `order`. */
  ghost predicate ListsConflicts(order: seq<string>, conflicts: seq<ConflictCandidate>,
                                 cur: Object, auth: Sources, inc: Object, source: string, ds: Decisions) {
    Distinct(order) &&
    (forall p :: p in order <==> p in ConflictPaths(ds)) &&
    |order| == |conflicts| &&
    forall i :: 0 <= i < |order| ==>
      order[i] in cur && order[i] in inc && order[i] in ds && ds[order[i]].Conflict? &&
      conflicts[i] == CandidateAt(cur, auth, order[i], inc[order[i]], source, ds[order[i]].reason)
  }

  /** What an update of `current` by `incoming` may produce: one result for the two flat forms,
      and the conflicts in any order. */
  ghost predicate ApplyOutcome(current: Object, incoming: Object, writeSource: string,
                               out: Object, conflicts: seq<ConflictCandidate>, changed: bool) {
    exists cur, inc, data, order ::
      ApplyOutcomeVia(current, incoming, writeSource, out, conflicts, changed, cur, inc, data, order)
  }

  ghost predicate ApplyOutcomeVia(current: Object, incoming: Object, writeSource: string,
                                  out: Object, conflicts: seq<ConflictCandidate>, changed: bool,
                                  cur: Object, inc: Object, data: Object, order: seq<string>) {
    var meta := SplitMeta(current).1;
    var auth := AuthorityOf(meta);
    var source := WriteSource(writeSource);
    var ds := Decide(cur, auth, inc, source);
    var written := Written(inc, ds);
    IsFlattened(SplitMeta(current).0, cur) &&
    IsFlattened(SplitMeta(incoming).0, inc) &&
    IsUnflattened(MergedFlat(cur, auth, inc, source), data) &&
    out == WithMeta(data, SetAuthorityPaths(meta, AllFrom(written, source))) &&
    ListsConflicts(order, conflicts, cur, auth, inc, source, ds) &&
    changed == (written.Keys != {})
  }

  /** The same, when the loop over the incoming document flattened it to `inc`. */
  ghost predicate OutcomeFrom(current: Object, incoming: Object, writeSource: string,
                              out: Object, conflicts: seq<ConflictCandidate>, changed: bool, inc: Object) {
    exists cur, data, order ::
      ApplyOutcomeVia(current, incoming, writeSource, out, conflicts, changed, cur, inc, data, order)
  }

  method ApplyAuthorityToDocuments(current: Object, incoming: Object, writeSource: string)
    returns (out: Object, conflicts: seq<ConflictCandidate>, changed: bool)
    ensures ApplyOutcome(current, incoming, writeSource, out, conflicts, changed)
  {
    var source := WriteSource(writeSource);
    var (dataCur, metaCur) := SplitMeta(current);
    var (dataIn, _) := SplitMeta(incoming);
    var flatCur := FlattenDocument(dataCur);
    var flatIn := FlattenDocument(dataIn);
    var newFlat, metaNew;
    ghost var order;
    newFlat, metaNew, conflicts, changed, order := MergeFields(flatCur, metaCur, flatIn, source);
    var data := UnflattenDocument(newFlat);
    out := WithMeta(data, metaNew);
    assert ApplyOutcomeVia(current, incoming, writeSource, out, conflicts, changed, flatCur, flatIn, data, order);
  }

  /** The loop over the incoming paths. */
  method MergeFields(flatCur: Object, metaCur: Object, flatIn: Object, source: string)
    returns (newFlat: Object, metaNew: Object, conflicts: seq<ConflictCandidate>, changed: bool, ghost order: seq<string>)
    ensures newFlat == MergedFlat(flatCur, AuthorityOf(metaCur), flatIn, source)
    ensures
      var ds := Decide(flatCur, AuthorityOf(metaCur), flatIn, source);
      metaNew == SetAuthorityPaths(metaCur, AllFrom(Written(flatIn, ds), source)) &&
      ListsConflicts(order, conflicts, flatCur, AuthorityOf(metaCur), flatIn, source, ds) &&
      changed == (Written(flatIn, ds).Keys != {})
  {
    metaNew := metaCur;
    var authPaths := ReadAuthorityPaths(metaNew);
    ghost var auth := authPaths;
    newFlat := flatCur;
    changed := false;
    conflicts := [];
    order := [];

    var rest := flatIn.Keys;
    ghost var done: Object := map[];
    assert ListsConflicts(order, conflicts, flatCur, auth, done, source, Decide(flatCur, auth, done, source));
    hide SetAuthorityPath, AllFrom, AuthorityOf, EffectiveSource, Decide, ListsConflicts;
    while rest != {}
      invariant Visited(flatIn, rest, done)
      invariant newFlat == flatCur + Written(done, Decide(flatCur, auth, done, source))
      invariant metaNew == SetAuthorityPaths(metaCur, AllFrom(Written(done, Decide(flatCur, auth, done, source)), source))
      invariant authPaths == auth + AllFrom(Written(done, Decide(flatCur, auth, done, source)), source)
      invariant changed == (Written(done, Decide(flatCur, auth, done, source)).Keys != {})
      invariant ListsConflicts(order, conflicts, flatCur, auth, done, source, Decide(flatCur, auth, done, source))
    {
      var path :| path in rest;
      VisitNext(flatIn, rest, done, path);
      rest := rest - {path};
      var incomingValue := flatIn[path];
      var existingSource := EffectiveSource(path, authPaths);
      ghost var ds := Decide(flatCur, auth, done, source);
      ghost var written := Written(done, ds);
      var decision := DecideField(newFlat, authPaths, path, incomingValue, source, flatCur, auth, written, done);
      OneMoreWritten(done, ds, source, path, incomingValue, decision);
      OneMoreConflict(order, conflicts, flatCur, auth, done, source, ds, path, incomingValue, decision);
      if decision.Apply? {
        SetOneMore(metaCur, AllFrom(written, source), path, source);
        AddThenSet(flatCur, written, path, incomingValue);
        AddThenSet(auth, AllFrom(written, source), path, source);
        newFlat := newFlat[path := incomingValue];
        metaNew := SetAuthorityPath(metaNew, path, source);
        authPaths := authPaths[path := source];
        changed := true;
      } else if decision.Conflict? {
        var (ns, fieldKey) := SplitNsField(path);
        conflicts := conflicts + [ConflictCandidate(ns, fieldKey, newFlat[path], incomingValue,
                                                    existingSource, source, decision.reason)];
        order := order + [path];
      }
      done := done[path := incomingValue];
    }
    VisitedAll(flatIn, done);
  }

  /** The decision on one path. Paths are visited once, so it does not matter that the maps
      already hold what earlier paths wrote. */
  method DecideField(newFlat: Object, authPaths: Sources, path: string, v: Json, source: string,
                     ghost cur: Object, ghost auth: Sources, ghost written: Object, ghost done: Object)
    returns (decision: Decision)
    requires path !in written && path !in done
    requires newFlat == cur + written && authPaths == auth + AllFrom(written, source)
    ensures Decide(cur, auth, done[path := v], source) == Decide(cur, auth, done, source)[path := decision]
    ensures !decision.Apply? ==> path in cur
    ensures EffectiveSource(path, authPaths) == EffectiveSource(path, auth)
  {
    hide MergeFieldAuthority, EffectiveSource, DecisionAt;
    EffectiveOf(auth, AllFrom(written, source), path);
    decision := if path !in newFlat then Apply
                else MergeFieldAuthority(newFlat[path], v, EffectiveSource(path, authPaths), source);
    DecisionOn(cur, auth, path, v, source);
  }

  lemma DecisionOn(cur: Object, auth: Sources, path: string, v: Json, source: string)
    ensures DecisionAt(cur, auth, path, v, source) ==
      if path !in cur then Apply else MergeFieldAuthority(cur[path], v, EffectiveSource(path, auth), source)
  {
  }

  lemma OneMoreWritten(done: Object, ds: Decisions, source: string, path: string, v: Json, d: Decision)
    requires path !in done && path !in ds
    ensures
      var w := Written(done, ds);
      Written(done[path := v], ds[path := d]) == (if d.Apply? then w[path := v] else w) &&
      AllFrom(w[path := v], source) == AllFrom(w, source)[path := source]
  {
    AllFromOneMore(Written(done, ds), source, path, v);
  }

  lemma OneMoreConflict(order: seq<string>, conflicts: seq<ConflictCandidate>,
                        cur: Object, auth: Sources, done: Object, source: string, ds: Decisions,
                        path: string, v: Json, d: Decision)
    requires path !in ds && path !in done && (!d.Apply? ==> path in cur)
    requires ListsConflicts(order, conflicts, cur, auth, done, source, ds)
    ensures
      if d.Conflict? then
        ListsConflicts(order + [path], conflicts + [CandidateAt(cur, auth, path, v, source, d.reason)],
                       cur, auth, done[path := v], source, ds[path := d])
      else ListsConflicts(order, conflicts, cur, auth, done[path := v], source, ds[path := d])
  {
    assert path !in order;
    assert ConflictPaths(ds[path := d]) ==
           if d.Conflict? then ConflictPaths(ds) + {path} else ConflictPaths(ds);
  }

  // ---------- what readers see of an update ----------

  function EffectiveSources(flat: Object, auth: Sources): Sources {
    map p | p in flat :: EffectiveSource(p, auth)
  }

  function EntriesOf(values: Object, sources: Sources): Profile {
    map p | p in values && p in sources :: Entry(values[p], sources[p])
  }

  function ViewOf(flat: Object, auth: Sources): Profile {
    EntriesOf(flat, EffectiveSources(flat, auth))
  }

  ghost function View(doc: Object): Profile
    requires StoredWellFormed(doc)
  {
    ViewOf(Flat(SplitMeta(doc).0), AuthorityOf(SplitMeta(doc).1))
  }

  /** What readers see of a stored document: the field `f` of an object `k` at k/f, and a root field
      `k` at default/k. */
  lemma ViewShowsField(doc: Object, k: string, f: string)
    requires StoredWellFormed(doc) && k in doc && k != "_meta" && doc[k].Obj? && f in doc[k].fields
    ensures k + "/" + f in View(doc) && View(doc)[k + "/" + f].value == doc[k].fields[f]
  {
    hide WellFormed, HasRoot, HasField, AuthorityOf, EffectiveSource;
    var data := SplitMeta(doc).0;
    FieldIsStored(data, k, f);
    assert k + "/" + f == Path(k, f);
  }

  lemma FieldIsStored(data: Object, k: string, f: string)
    requires WellFormed(data) && k in data && data[k].Obj? && f in data[k].fields
    ensures Path(k, f) in Flat(data) && Flat(data)[Path(k, f)] == data[k].fields[f]
  {
    FlatNames(data, Flat(data), k);
  }

  lemma ViewShowsRoot(doc: Object, k: string)
    requires StoredWellFormed(doc) && k in doc && k != "_meta" && !doc[k].Obj?
    ensures "default/" + k in View(doc) && View(doc)["default/" + k].value == doc[k]
  {
    hide WellFormed, HasRoot, HasField, AuthorityOf, EffectiveSource;
    var data := SplitMeta(doc).0;
    RootIsStored(data, k);
    assert DEFAULT + "/" == "default/";
  }

  lemma RootIsStored(data: Object, k: string)
    requires WellFormed(data) && k in data && !data[k].Obj?
    ensures Path(DEFAULT, k) in Flat(data) && Flat(data)[Path(DEFAULT, k)] == data[k]
  {
    FlatNames(data, Flat(data), k);
  }

  /** Each path has the source that the metadata names for it, and "api" when it names none. */
  lemma ViewShowsSource(doc: Object, path: string)
    requires StoredWellFormed(doc) && path in View(doc)
    ensures View(doc)[path].source == NamedSource(doc, path)
  {
    hide WellFormed, TrimSpace;
    var root := AuthorityRoot(SplitMeta(doc).1);
    if path in root && root[path].Obj? && SOURCE in root[path].fields && root[path].fields[SOURCE].Str? {
      TrimIdempotent(root[path].fields[SOURCE].s);
    }
    BlankMeans("");
  }

  /** And a reader sees nothing else. */
  lemma ViewShowsNoMore(doc: Object, path: string)
    requires StoredWellFormed(doc) && path in View(doc)
    ensures exists k :: k in doc && k != "_meta" && IsPathOf(doc[k], k, path)
  {
    var data := SplitMeta(doc).0;
    var k :| Contributes(data, k, path, Flat(data)[path]);
    assert k in doc && doc[k] == data[k];
    assert "default/" + k == Path(DEFAULT, k) by { assert DEFAULT + "/" == "default/"; }
    assert IsPathOf(doc[k], k, path);
  }

  ghost predicate IsPathOf(v: Json, k: string, path: string) {
    if v.Obj? then exists f :: f in v.fields && path == k + "/" + f else path == "default/" + k
  }

  /** The source that stands in the metadata for a path. */
  function NamedSource(doc: Object, path: string): string {
    if "_meta" in doc && doc["_meta"].Obj? then
      var meta := doc["_meta"].fields;
      if "authority" in meta && meta["authority"].Obj? && path in meta["authority"].fields then
        var entry := meta["authority"].fields[path];
        if entry.Obj? && "source" in entry.fields && entry.fields["source"].Str? && TrimSpace(entry.fields["source"].s) != ""
        then TrimSpace(entry.fields["source"].s) else "api"
      else "api"
    else "api"
  }

  /** Writing entries into a profile, and what readers see of it. */
  lemma ViewAfterWriting(cur: Object, auth: Sources, written: Object, sources: Sources)
    requires written.Keys == sources.Keys
    requires forall p :: p in sources ==> EffectiveSource(p, sources) == sources[p]
    ensures ViewOf(cur + written, auth + sources) == ViewOf(cur, auth) + EntriesOf(written, sources)
  {
    EffectiveSum(cur, auth, written, sources);
    EntriesOfSum(cur, EffectiveSources(cur, auth), written, sources);
  }

  lemma EffectiveSum(cur: Object, auth: Sources, written: Object, sources: Sources)
    requires written.Keys == sources.Keys
    requires forall p :: p in sources ==> EffectiveSource(p, sources) == sources[p]
    ensures EffectiveSources(cur + written, auth + sources) == EffectiveSources(cur, auth) + sources
  {
    hide EffectiveSource;
    var after, sum := EffectiveSources(cur + written, auth + sources), EffectiveSources(cur, auth) + sources;
    forall p | p in after ensures after[p] == sum[p] {
      EffectiveOf(auth, sources, p);
    }
  }

  lemma EffectiveOf(auth: Sources, sources: Sources, path: string)
    ensures EffectiveSource(path, auth + sources) == EffectiveSource(path, if path in sources then sources else auth)
  {
  }

  lemma EffectiveOfAll(flat: Object, source: string)
    requires source != "" && TrimSpace(source) == source
    ensures forall p :: p in flat ==> EffectiveSource(p, AllFrom(flat, source)) == source
  {
  }

  lemma EntriesOfSum(a: Object, sa: Sources, b: Object, sb: Sources)
    requires a.Keys == sa.Keys && b.Keys == sb.Keys
    ensures EntriesOf(a + b, sa + sb) == EntriesOf(a, sa) + EntriesOf(b, sb)
  {
  }

  lemma DecisionsAgree(cur: Object, auth: Sources, inc: Object, source: string)
    ensures
      var v, ds := ViewOf(cur, auth), Decide(cur, auth, inc, source);
      EntriesOf(Written(inc, ds), AllFrom(Written(inc, ds), source)) == Won(v, inc, source) &&
      ConflictPaths(ds) == Lost(v, inc, source)
  {
    var v, ds := ViewOf(cur, auth), Decide(cur, auth, inc, source);
    forall p | p in inc ensures ds[p] == DecisionFor(v, p, inc[p], source) {}
    WonAt(v, ds, inc, source);
  }

  lemma WonAt(v: Profile, ds: Decisions, inc: Object, source: string)
    requires ds.Keys == inc.Keys && forall p :: p in inc ==> ds[p] == DecisionFor(v, p, inc[p], source)
    ensures EntriesOf(Written(inc, ds), AllFrom(Written(inc, ds), source)) == Won(v, inc, source)
    ensures ConflictPaths(ds) == Lost(v, inc, source)
  {
    var w, l, r := Written(inc, ds), EntriesOf(Written(inc, ds), AllFrom(Written(inc, ds), source)), Won(v, inc, source);
    forall p ensures p in l <==> p in r {
      assert p in l <==> p in w;
    }
  }

  /** The flat result of an update is the pointwise update of what readers see. */
  lemma UpdateOnFlat(cur: Object, auth: Sources, inc: Object, source: string)
    requires source != "" && TrimSpace(source) == source
    ensures
      var written := Written(inc, Decide(cur, auth, inc, source));
      ViewOf(cur + written, auth + AllFrom(written, source)) == UpdateView(ViewOf(cur, auth), inc, source)
  {
    var written := Written(inc, Decide(cur, auth, inc, source));
    EffectiveOfAll(written, source);
    ViewAfterWriting(cur, auth, written, AllFrom(written, source));
    DecisionsAgree(cur, auth, inc, source);
  }

  /** Storing flat data that survives unflattening. */
  lemma StoredView(flat: Object, data: Object, meta: Object)
    requires WellFormedFlat(flat) && IsUnflattened(flat, data)
    ensures StoredWellFormed(WithMeta(data, meta))
    ensures View(WithMeta(data, meta)) == ViewOf(flat, AuthorityOf(meta))
    ensures Flat(SplitMeta(WithMeta(data, meta)).0) == flat
  {
    UnflattenedWellFormed(flat, data);
    SplitWithMeta(data, meta);
    RoundTripFlat(flat, data, Flat(data));
  }

  /** An update of a stored document by the paths `inc` is regular when the document survives
      flattening, the paths can be stored, and no name is a root field in one and a namespace in
      the other. Nothing else is asked of the incoming document: empty namespaces have no paths,
      and fields of an object "default" are root fields. */
  ghost predicate RegularUpdate(doc: Object, inc: Object) {
    StoredWellFormed(doc) && WellFormedFlat(inc) && NoClash(Flat(SplitMeta(doc).0).Keys + inc.Keys)
  }

  /** Two stored documents can be merged when both survive flattening and no name is a root field in
      one and a namespace in the other. */
  ghost predicate RegularPair(doc: Object, other: Object) {
    StoredWellFormed(doc) && StoredWellFormed(other) &&
    NoClash(Flat(SplitMeta(doc).0).Keys + Flat(SplitMeta(other).0).Keys)
  }

  lemma UnionWellFormed(cur: Object, inc: Object, merged: Object)
    requires WellFormedFlat(cur) && WellFormedFlat(inc) && NoClash(cur.Keys + inc.Keys)
    requires merged.Keys <= cur.Keys + inc.Keys
    requires forall p :: p in merged ==> (p in cur && merged[p] == cur[p]) || (p in inc && merged[p] == inc[p])
    ensures WellFormedFlat(merged)
  {
  }

  /** Some candidate records that `incoming` from `source` lost against the entry `e` at `path`. */
  ghost predicate Reports(conflicts: seq<ConflictCandidate>, path: string, e: Entry, incoming: Json, source: string) {
    exists i :: 0 <= i < |conflicts| && IsReport(conflicts[i], path, e, incoming, source)
  }

  predicate IsReport(c: ConflictCandidate, path: string, e: Entry, incoming: Json, source: string) {
    c.ns + "/" + c.fieldKey == path && Entry(c.existing, c.existingSource) == e &&
    c.incoming == incoming && c.incomingSource == source &&
    c.reason == if PriorityOf(source) < Rank(e) then "incoming source has lower priority than existing"
                else "same priority and different values from different sources"
  }

  /** The flat forms in an outcome for well formed documents are the documents' own. */
  lemma OutcomeFlats(current: Object, incoming: Object, cur: Object, inc: Object)
    requires StoredWellFormed(current) && StoredWellFormed(incoming)
    requires IsFlattened(SplitMeta(current).0, cur) && IsFlattened(SplitMeta(incoming).0, inc)
    ensures cur == Flat(SplitMeta(current).0) && inc == Flat(SplitMeta(incoming).0)
    ensures WellFormedFlat(cur) && WellFormedFlat(inc)
  {
    FlattenedUnique(SplitMeta(current).0, cur, Flat(SplitMeta(current).0));
    FlattenedUnique(SplitMeta(incoming).0, inc, Flat(SplitMeta(incoming).0));
    FlattenedWellFormed(SplitMeta(current).0, cur);
    FlattenedWellFormed(SplitMeta(incoming).0, inc);
  }

  lemma CurrentFlat(current: Object, cur: Object)
    requires StoredWellFormed(current) && IsFlattened(SplitMeta(current).0, cur)
    ensures cur == Flat(SplitMeta(current).0) && WellFormedFlat(cur)
  {
    FlattenedUnique(SplitMeta(current).0, cur, Flat(SplitMeta(current).0));
    FlattenedWellFormed(SplitMeta(current).0, cur);
  }

  /** Every regular update, whatever the order of its loop, is the pointwise update of the
      profile. It reports a change exactly when some value changed. */
  lemma UpdateIsPointwise(current: Object, incoming: Object, writeSource: string,
                          out: Object, conflicts: seq<ConflictCandidate>, changed: bool, inc: Object)
    requires RegularUpdate(current, inc)
    requires OutcomeFrom(current, incoming, writeSource, out, conflicts, changed, inc)
    ensures StoredWellFormed(out)
    ensures View(out) == UpdateView(View(current), inc, WriteSource(writeSource))
    ensures changed <==> Flat(SplitMeta(out).0) != Flat(SplitMeta(current).0)
  {
    hide WellFormed, WellFormedFlat, NoClash, IsFlattened, IsUnflattened, UpdateView, ListsConflicts;
    var cur, data, order :|
      ApplyOutcomeVia(current, incoming, writeSource, out, conflicts, changed, cur, inc, data, order);
    CurrentFlat(current, cur);
    SourcesAreTrimmed("", map[], writeSource);
    UpdateStored(cur, SplitMeta(current).1, inc, WriteSource(writeSource), data);
  }

  lemma UpdateStored(cur: Object, meta: Object, inc: Object, source: string, data: Object)
    requires WellFormedFlat(cur) && WellFormedFlat(inc) && NoClash(cur.Keys + inc.Keys)
    requires source != "" && TrimSpace(source) == source
    requires IsUnflattened(MergedFlat(cur, AuthorityOf(meta), inc, source), data)
    ensures
      var auth := AuthorityOf(meta);
      var written := Written(inc, Decide(cur, auth, inc, source));
      var out := WithMeta(data, SetAuthorityPaths(meta, AllFrom(written, source)));
      StoredWellFormed(out) &&
      View(out) == UpdateView(ViewOf(cur, auth), inc, source) &&
      (written.Keys != {} <==> Flat(SplitMeta(out).0) != cur)
  {
    var auth := AuthorityOf(meta);
    var written := Written(inc, Decide(cur, auth, inc, source));
    UnionWellFormed(cur, inc, cur + written);
    SetThenRead(meta, AllFrom(written, source));
    StoredView(cur + written, data, SetAuthorityPaths(meta, AllFrom(written, source)));
    UpdateOnFlat(cur, auth, inc, source);
    WrittenDiffers(cur, auth, inc, source);
  }

  /** Every update lists exactly one conflict for each path at which it loses, with both values,
      both sources and the reason. */
  lemma UpdateReportsLosses(current: Object, incoming: Object, writeSource: string,
                            out: Object, conflicts: seq<ConflictCandidate>, changed: bool, inc: Object)
    requires StoredWellFormed(current)
    requires OutcomeFrom(current, incoming, writeSource, out, conflicts, changed, inc)
    ensures
      var v, source := View(current), WriteSource(writeSource);
      |conflicts| == |Lost(v, inc, source)| &&
      (forall p :: p in Lost(v, inc, source) ==> Reports(conflicts, p, v[p], inc[p], source)) &&
      forall p :: p in Lost(v, inc, source) <==>
        p in inc && p in v && v[p].value != inc[p] && !OwnedBy(v[p], source) && PriorityOf(source) <= Rank(v[p])
  {
    forall p { LostMeans(View(current), inc, WriteSource(writeSource), p); }
    var cur, data, order :|
      ApplyOutcomeVia(current, incoming, writeSource, out, conflicts, changed, cur, inc, data, order);
    CurrentFlat(current, cur);
    var auth, source := AuthorityOf(SplitMeta(current).1), WriteSource(writeSource);
    DecisionsAgree(cur, auth, inc, source);
    ConflictsComplete(order, conflicts, SplitMeta(incoming).0, cur, auth, inc, source);
  }

  /** After a regular update, each incoming path of which the update's own source was the source has
      the incoming value; and an update that brings nothing but such paths and new ones has no
      conflicts, and all its values are stored. */
  lemma OwnSourceOverwrites(current: Object, incoming: Object, writeSource: string,
                            out: Object, conflicts: seq<ConflictCandidate>, changed: bool, inc: Object)
    requires RegularUpdate(current, inc)
    requires OutcomeFrom(current, incoming, writeSource, out, conflicts, changed, inc)
    ensures StoredWellFormed(out)
    ensures
      var (v, source) := (View(current), WriteSource(writeSource));
      (forall p :: p in inc && p in v && OwnedBy(v[p], source) ==> p in View(out) && View(out)[p].value == inc[p]) &&
      ((forall p :: p in inc && p in v ==> OwnedBy(v[p], source)) ==>
        conflicts == [] && forall p :: p in inc ==> p in View(out) && View(out)[p].value == inc[p])
  {
    hide View, WellFormed, OutcomeFrom, UpdateView, Lost, OwnedBy, WriteSource, NoClash, WellFormedFlat;
    var (v, source) := (View(current), WriteSource(writeSource));
    UpdateIsPointwise(current, incoming, writeSource, out, conflicts, changed, inc);
    UpdateReportsLosses(current, incoming, writeSource, out, conflicts, changed, inc);
    forall p | p in inc && p in v && OwnedBy(v[p], source) ensures p in View(out) && View(out)[p].value == inc[p] && p !in Lost(v, inc, source) {
      OwnUpdateWins(v, inc, source, p);
    }
    forall p | p in inc && p !in v ensures p in View(out) && View(out)[p].value == inc[p] && p !in Lost(v, inc, source) {
      UpdateByPath(v, inc, source, p);
    }
    if forall p :: p in inc && p in v ==> OwnedBy(v[p], source) {
      assert Lost(v, inc, source) == {};
    }
  }

  /** What is written differs from what was there. */
  lemma WrittenDiffers(cur: Object, auth: Sources, inc: Object, source: string)
    ensures
      var written := Written(inc, Decide(cur, auth, inc, source));
      written.Keys != {} <==> cur + written != cur
  {
    var written := Written(inc, Decide(cur, auth, inc, source));
    if written.Keys != {} {
      var p :| p in written;
      assert p in cur ==> cur[p] != written[p];
    }
  }

  lemma ConflictsComplete(order: seq<string>, conflicts: seq<ConflictCandidate>, data: Object,
                          cur: Object, auth: Sources, inc: Object, source: string)
    requires IsFlattened(data, inc)
    requires ListsConflicts(order, conflicts, cur, auth, inc, source, Decide(cur, auth, inc, source))
    ensures
      var lost := ConflictPaths(Decide(cur, auth, inc, source));
      |conflicts| == |lost| &&
      forall p :: p in lost ==> p in cur && p in inc && Reports(conflicts, p, ViewOf(cur, auth)[p], inc[p], source)
  {
    hide MergeFieldAuthority, PriorityOf, Canonical, IsFlattened, EffectiveSource, IsReport;
    var ds := Decide(cur, auth, inc, source);
    DistinctCount(order, ConflictPaths(ds));
    forall p | p in ConflictPaths(ds)
      ensures p in cur && p in inc && Reports(conflicts, p, ViewOf(cur, auth)[p], inc[p], source)
    {
      var i :| 0 <= i < |order| && order[i] == p;
      FlattenedPathsHaveSlash(data, inc, p);
      CandidateReports(cur, auth, p, inc[p], source);
      assert IsReport(conflicts[i], p, ViewOf(cur, auth)[p], inc[p], source);
    }
  }

  /** The candidate of a path at which an update loses. */
  lemma CandidateReports(cur: Object, auth: Sources, path: string, incoming: Json, source: string)
    requires path in cur && '/' in path && DecisionAt(cur, auth, path, incoming, source).Conflict?
    ensures
      var reason := DecisionAt(cur, auth, path, incoming, source).reason;
      IsReport(CandidateAt(cur, auth, path, incoming, source, reason), path, ViewOf(cur, auth)[path], incoming, source)
  {
    hide MergeFieldAuthority, PriorityOf, Canonical, EffectiveSource;
    JoinSplit(path);
    DecisionMeaning(ViewOf(cur, auth)[path], incoming, source);
  }

  /** The stored document has exactly the merged paths and values if and only if these are well
      formed; for a document and paths that are well formed each by themselves, if and only if no
      name is a root field in one and a namespace in the other. */
  lemma UpdateStoresEveryPath(current: Object, incoming: Object, writeSource: string,
                              out: Object, conflicts: seq<ConflictCandidate>, changed: bool,
                              cur: Object, inc: Object, data: Object, order: seq<string>, back: Object)
    requires ApplyOutcomeVia(current, incoming, writeSource, out, conflicts, changed, cur, inc, data, order)
    requires IsFlattened(data, back)
    ensures
      var merged := MergedFlat(cur, AuthorityOf(SplitMeta(current).1), inc, WriteSource(writeSource));
      (back == merged <==> WellFormedFlat(merged)) &&
      (StoredWellFormed(current) && WellFormedFlat(inc) ==> (back == merged <==> RegularUpdate(current, inc)))
  {
    hide WellFormed, IsFlattened, IsUnflattened, ListsConflicts, AuthorityOf, WellFormedFlat;
    var merged := MergedFlat(cur, AuthorityOf(SplitMeta(current).1), inc, WriteSource(writeSource));
    RoundTripFlat(merged, data, back);
    if StoredWellFormed(current) && WellFormedFlat(inc) {
      CurrentFlat(current, cur);
      ClashDecides(cur, AuthorityOf(SplitMeta(current).1), inc, WriteSource(writeSource));
    }
  }

  lemma ClashDecides(cur: Object, auth: Sources, inc: Object, source: string)
    requires WellFormedFlat(cur) && WellFormedFlat(inc)
    ensures WellFormedFlat(MergedFlat(cur, auth, inc, source)) <==> NoClash(cur.Keys + inc.Keys)
  {
    MergedKeys(cur, auth, inc, source);
    if NoClash(cur.Keys + inc.Keys) { UnionWellFormed(cur, inc, MergedFlat(cur, auth, inc, source)); }
  }

  lemma MergedKeys(cur: Object, auth: Sources, inc: Object, source: string)
    ensures MergedFlat(cur, auth, inc, source).Keys == cur.Keys + inc.Keys
  {
    var ds := Decide(cur, auth, inc, source);
    forall p | p in inc && p !in cur ensures p in Written(inc, ds) { assert ds[p] == Apply; }
  }
}
