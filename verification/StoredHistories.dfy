/** Stored profiles over the runs of the store: what no sequence of operations takes away. */
module StoredHistories {
  import opened Basics
  import opened JsonValues
  import opened Authority
  import opened DocumentPaths
  import opened AuthorityMerge
  import opened DuplicateMerge
  import opened History
  import opened ExternalRefs
  import opened ProfileSteps
  import opened Tables
  import opened Statements
  import opened CatalogStatements
  import opened Requests
  import T = Transactions
  import R = Runs

  /** A path of an entity about which nobody decides by hand between two versions. */
  datatype Watch = Watch(entity: Id, from: int, to: int, path: string)

  /** The path that the version after `k` leaves to others than a manual decision, if any. */
  function Spared(watch: Option<Watch>, k: VersionKey): Option<string> {
    if watch.Some? && k.entity == watch.value.entity && watch.value.from <= k.version < watch.value.to
    then Some(watch.value.path) else None
  }

  /** The incoming document can be stored beside what is there, whatever paths its loop gives. */
  ghost predicate IsRegularIncoming(doc: Object, incoming: Object) {
    forall inc :: IsFlattened(SplitMeta(incoming).0, inc) ==> RegularUpdate(doc, inc)
  }

  ghost predicate CanBeStored(incoming: Object) {
    forall inc :: IsFlattened(SplitMeta(incoming).0, inc) ==> WellFormedFlat(inc)
  }

  /** The update makes no manual decision about `path`. */
  ghost predicate UpdateSpares(incoming: Object, source: string, path: string) {
    forall inc :: IsFlattened(SplitMeta(incoming).0, inc) ==> Spares(Updated(inc, source), path)
  }

  /** The operation brings data that can be stored beside what is there, and is no manual decision
      about a path that is watched. */
  ghost predicate IsRegular(task: T.Task, seen: T.Seen, watch: Option<Watch>) {
    match task
    case Create(_, document, _, _) => CanBeStored(document)
    case Update(e, document, source, _) =>
      e in seen.documents && IsRegularIncoming(seen.documents[e], document) &&
      (SparedBy(watch, e, seen.next).Some? ==> UpdateSpares(document, source, SparedBy(watch, e, seen.next).value))
    case Resolve(e, _, path, value) =>
      e in seen.documents && RegularResolution(seen.documents[e], path, value) &&
      (SparedBy(watch, e, seen.next).Some? ==> SparedBy(watch, e, seen.next).value != path)
    case Merge(from, into) =>
      from in seen.documents && into in seen.documents && RegularPair(seen.documents[into], seen.documents[from])
    case _ => true
  }

  function SparedBy(watch: Option<Watch>, e: Id, next: Option<int>): Option<string> {
    if next.Some? then Spared(watch, VersionKey(e, next.value - 1)) else None
  }

  ghost predicate IsRegularRun(run: seq<T.State>, rules: SchemaRules, watch: Option<Watch>) {
    T.IsRun(run, rules) &&
    forall k, i :: 0 <= k < |run| - 1 && T.Commits(run[k], rules, i, run[k + 1]) ==>
      IsRegular(run[k].txs[i].task, run[k].txs[i].seen, watch)
  }

  ghost predicate HistoriesRegular(versions: map<VersionKey, Object>, watch: Option<Watch>) {
    (forall k :: k in versions && k.version == 1 ==> StoredWellFormed(versions[k])) &&
    forall k :: k in versions && k.Next() in versions ==> FollowsRegularly(versions[k], versions[k.Next()], Spared(watch, k))
  }

  /** `versions'` has at most one more version than `versions`, the next one of `e`. */
  ghost predicate GrowsBy(versions: map<VersionKey, Object>, versions': map<VersionKey, Object>, e: Id, doc: Object) {
    forall k :: k in versions' ==>
      if k == VersionKey(e, MaxVersion(versions, e) + 1) then versions'[k] == doc else k in versions && versions'[k] == versions[k]
  }

  ghost predicate Extends(versions: map<VersionKey, Object>, e: Id, doc: Object, watch: Option<Watch>) {
    var k := VersionKey(e, MaxVersion(versions, e));
    if k in versions then FollowsRegularly(versions[k], doc, Spared(watch, k)) else StoredWellFormed(doc)
  }

  lemma GrowsRegularly(versions: map<VersionKey, Object>, versions': map<VersionKey, Object>, e: Id, doc: Object, watch: Option<Watch>)
    requires HistoriesRegular(versions, watch) && Numbered(versions, e)
    requires GrowsBy(versions, versions', e, doc) && Extends(versions, e, doc, watch)
    ensures HistoriesRegular(versions', watch)
  {
    hide FollowsRegularly, WellFormed, MaxVersion, Spared;
    NumberedFromZero(versions, e);
    var n := MaxVersion(versions, e);
    assert VersionKey(e, n + 2) !in versions;
    forall k | k in versions' && k.version == 1 ensures StoredWellFormed(versions'[k]) {
      if k == VersionKey(e, n + 1) { assert VersionKey(e, n) !in versions; }
    }
    forall k | k in versions' && k.Next() in versions'
      ensures FollowsRegularly(versions'[k], versions'[k.Next()], Spared(watch, k))
    {
      if k.Next() == VersionKey(e, n + 1) {
        assert k == VersionKey(e, n);
      }
    }
  }

  // ---------- every write of a regular operation ----------

  lemma SameVersions(versions: map<VersionKey, Object>, versions': map<VersionKey, Object>, watch: Option<Watch>)
    requires HistoriesRegular(versions, watch) && forall k :: k in versions' ==> k in versions && versions'[k] == versions[k]
    ensures HistoriesRegular(versions', watch)
  {
    hide FollowsRegularly, WellFormed;
  }

  lemma SoundIsNumbered(db: Db, e: Id)
    requires Sound(db)
    ensures Numbered(db.versions, e) && VersionKey(e, MaxVersion(db.versions, e) + 1) !in db.versions
  {
    hide MaxVersion;
    assert Numbered(db.versions, e);
  }

  /** A new version whose document follows regularly from the present one. */
  lemma VersionRegular(db: Db, db': Db, e: Id, doc: Object, watch: Option<Watch>)
    requires Sound(db) && HistoriesRegular(db.versions, watch) && HasDocument(db, e)
    requires FollowsRegularly(Document(db, e), doc, Spared(watch, VersionKey(e, MaxVersion(db.versions, e))))
    requires GrowsBy(db.versions, db'.versions, e, doc)
    ensures HistoriesRegular(db'.versions, watch)
  {
    hide HistoriesRegular, Sound, FollowsRegularly, MaxVersion, GrowsBy;
    SoundIsNumbered(db, e);
    GrowsRegularly(db.versions, db'.versions, e, doc, watch);
  }

  lemma UpdateRegular(db: Db, e: Id, document: Object, source: string, refs: seq<Ref>,
                      current: Object, have: set<Ref>, next: Option<int>, key: Option<string>, db': Db, watch: Option<Watch>)
    requires Sound(db) && HistoriesRegular(db.versions, watch) && e in db.entities && HasDocument(db, e) && current == Document(db, e)
    requires next.Some? ==> next.value == MaxVersion(db.versions, e) + 1
    requires UpdateWrites(db, e, document, source, refs, current, have, next, key, db') && IsRegularIncoming(current, document)
    requires SparedBy(watch, e, next).Some? ==> UpdateSpares(document, source, SparedBy(watch, e, next).value)
    ensures HistoriesRegular(db'.versions, watch)
  {
    hide HistoriesRegular, Consistent, UpToDate, UpdateStores, ApplyOutcome, RefsDiffer, FollowsRegularly, IsRegularIncoming, MaxVersion, UpdateSpares, Spared;
    var doc, candidates, changed, ids :|
      ApplyOutcome(current, document, source, doc, candidates, changed) &&
      |ids| == |candidates| && FreshIds(db, ids) && Bound(db, e) &&
      UpdateStores(AddConflicts(db, e, candidates, ids), e, if changed then doc else current, changed || RefsDiffer(have, refs), refs, next, key, db');
    AddConflictsSound(db, e, candidates, ids);
    var db1 := AddConflicts(db, e, candidates, ids);
    var stored := if changed then doc else current;
    if changed || RefsDiffer(have, refs) {
      VersionIsStored(db1, e, stored, changed || RefsDiffer(have, refs), refs, next, key, db');
      UpdateFollowsRegularly(current, document, source, doc, candidates, changed, Spared(watch, VersionKey(e, MaxVersion(db.versions, e))));
      VersionRegular(db, db', e, stored, watch);
    } else {
      NothingIsStored(db1, e, stored, changed || RefsDiffer(have, refs), refs, next, key, db');
    }
  }

  lemma NothingIsStored(db: Db, e: Id, doc: Object, changed: bool, refs: seq<Ref>, next: Option<int>, key: Option<string>, db': Db)
    requires UpdateStores(db, e, doc, changed, refs, next, key, db') && !changed
    ensures db' == db
  {
  }

  lemma VersionIsStored(db: Db, e: Id, doc: Object, changed: bool, refs: seq<Ref>, next: Option<int>, key: Option<string>, db': Db)
    requires UpdateStores(db, e, doc, changed, refs, next, key, db') && changed
    requires next.Some? ==> next.value == MaxVersion(db.versions, e) + 1
    ensures next.Some? && GrowsBy(db.versions, db'.versions, e, doc)
  {
    hide MaxVersion;
  }

  lemma UpdateFollowsRegularly(current: Object, document: Object, source: string, doc: Object,
                               candidates: seq<ConflictCandidate>, changed: bool, spared: Option<string>)
    requires ApplyOutcome(current, document, source, doc, candidates, changed) && IsRegularIncoming(current, document)
    requires spared.Some? ==> UpdateSpares(document, source, spared.value)
    ensures FollowsRegularly(current, if changed then doc else current, spared)
  {
    hide ListsConflicts, IsFlattened, IsUnflattened, RegularUpdate, Spares, SetAuthorityPaths, Decide;
    if changed {
      var cur, inc, data, order :| ApplyOutcomeVia(current, document, source, doc, candidates, changed, cur, inc, data, order);
      assert OutcomeFrom(current, document, source, doc, candidates, changed, inc);
      assert Makes(current, Updated(inc, source), doc) && IsRegularChange(current, Updated(inc, source));
    } else {
      UnchangedIsRegular(current, spared);
    }
  }

  lemma UnchangedIsRegular(doc: Object, spared: Option<string>)
    ensures FollowsRegularly(doc, doc, spared)
  {
    assert Makes(doc, Unchanged, doc) && IsRegularChange(doc, Unchanged);
  }

  lemma ResolveRegular(db: Db, c: Id, e: Id, path: string, value: Json, current: Object, next: int, key: string, db': Db, watch: Option<Watch>)
    requires Sound(db) && HistoriesRegular(db.versions, watch) && HasDocument(db, e) && current == Document(db, e)
    requires next == MaxVersion(db.versions, e) + 1
    requires ResolveWrites(db, c, e, path, value, current, next, key, db') && RegularResolution(current, path, value)
    requires Spared(watch, VersionKey(e, next - 1)).Some? ==> Spared(watch, VersionKey(e, next - 1)).value != path
    ensures HistoriesRegular(db'.versions, watch)
  {
    hide HistoriesRegular, Sound, ResolveOutcome, RegularResolution, MaxVersion, Spared;
    var doc :| ResolveOutcome(current, path, value, doc) && db' == WithResolution(db, c, e, next, key, doc);
    var change := ResolvedAt(path, value);
    assert Makes(current, change, doc) && IsRegularChange(current, change);
    assert FollowsRegularly(current, doc, Spared(watch, VersionKey(e, next - 1)));
    hide FollowsRegularly;
    VersionRegular(db, db', e, doc, watch);
  }

  lemma MergeFollowsRegularly(intoDoc: Object, fromDoc: Object, doc: Object, spared: Option<string>)
    requires DuplicateOutcome(intoDoc, fromDoc, doc) && RegularPair(intoDoc, fromDoc)
    ensures FollowsRegularly(intoDoc, doc, spared)
  {
    hide DuplicateOutcome, RegularPair;
    assert Makes(intoDoc, MergedWith(fromDoc), doc) && IsRegularChange(intoDoc, MergedWith(fromDoc));
  }

  lemma MergeRegular(db: Db, from: Id, into: Id, fromDoc: Object, intoDoc: Object, next: int, key: string, db': Db, watch: Option<Watch>)
    requires Sound(db) && HistoriesRegular(db.versions, watch) && HasDocument(db, into) && intoDoc == Document(db, into)
    requires next == MaxVersion(db.versions, into) + 1
    requires MergeWrites(db, from, into, fromDoc, intoDoc, next, key, db') && RegularPair(intoDoc, fromDoc)
    ensures HistoriesRegular(db'.versions, watch)
  {
    hide HistoriesRegular, Sound, DuplicateOutcome, RegularPair, MaxVersion, MoveMappings, SharedRefs, FollowsRegularly, Spared;
    var doc :| DuplicateOutcome(intoDoc, fromDoc, doc) && db' == Merged(db, from, into, next, key, doc);
    MergeFollowsRegularly(intoDoc, fromDoc, doc, Spared(watch, VersionKey(into, next - 1)));
    VersionRegular(db, db', into, doc, watch);
  }

  lemma UpgradeRegular(db: Db, e: Id, r: Id, rules: SchemaRules, current: Object, next: Option<int>, key: Option<string>, db': Db, watch: Option<Watch>)
    requires Sound(db) && HistoriesRegular(db.versions, watch) && HasDocument(db, e) && current == Document(db, e)
    requires next.Some? ==> next.value == MaxVersion(db.versions, e) + 1
    requires UpgradeWrites(db, e, r, rules, current, next, key, db')
    ensures HistoriesRegular(db'.versions, watch)
  {
    hide HistoriesRegular, Sound, MaxVersion, FollowsRegularly, Spared;
    if db.entities[e].revision != r {
      UnchangedIsRegular(current, Spared(watch, VersionKey(e, MaxVersion(db.versions, e))));
      VersionRegular(db, db', e, current, watch);
    }
  }

  lemma CreateRegular(db: Db, e: Id, f: Id, r: Id, document: Object, source: string, refs: seq<Ref>, key: string, db': Db, watch: Option<Watch>)
    requires Sound(db) && HistoriesRegular(db.versions, watch)
    requires CreateWrites(db, e, f, r, document, source, refs, key, db') && CanBeStored(document)
    ensures HistoriesRegular(db'.versions, watch)
  {
    hide HistoriesRegular, Sound, InitialOutcomeVia, MaxVersion, WellFormed, View, Created, RefsFree, WellFormedFlat, CanBeStored;
    var doc :| InitialOutcome(document, source, doc) && db' == Created(db, e, f, r, key, doc, refs);
    var flat, data :| InitialOutcomeVia(document, source, doc, flat, data);
    FlatCanBeStored(document, source, doc, flat, data);
    CreateIsAnUpdate(document, source, doc, flat, data);
    CreatedVersions(db, e, f, r, key, doc, refs);
    SoundIsNumbered(db, e);
    GrowsRegularly(db.versions, db'.versions, e, doc, watch);
  }

  lemma FlatCanBeStored(document: Object, source: string, doc: Object, flat: Object, data: Object)
    requires InitialOutcomeVia(document, source, doc, flat, data) && CanBeStored(document)
    ensures WellFormedFlat(flat)
  {
    hide WellFormedFlat, IsFlattened, IsUnflattened;
  }

  lemma CreatedVersions(db: Db, e: Id, f: Id, r: Id, key: string, doc: Object, refs: seq<Ref>)
    requires Sound(db) && e !in db.issued && Revises(db, r, f)
    ensures MaxVersion(db.versions, e) == 0 && VersionKey(e, 0) !in db.versions
    ensures Created(db, e, f, r, key, doc, refs).versions == db.versions[VersionKey(e, 1) := doc]
  {
    hide CatalogSound, BindingsSound, EventsSound, HistoriesSound, MappingsSound, ConflictsSound, UpToDate, MaxVersion, ReplaceRefs;
    NoVersionsOf(db, e);
  }

  lemma WritesRegular(db: Db, rules: SchemaRules, tx: T.Tx, db': Db, watch: Option<Watch>)
    requires Sound(db) && T.TxSound(db, tx) && T.AllLocked(tx) && T.Writes(db, rules, tx.task, tx.seen, db')
    requires HistoriesRegular(db.versions, watch) && IsRegular(tx.task, tx.seen, watch)
    ensures HistoriesRegular(db'.versions, watch)
  {
    hide Sound, T.SeenHolds, T.Writes, HistoriesRegular, IsRegular, T.ClaimsFit, T.ConflictStands;
    assert T.Locks(tx.task)[..tx.held] == T.Locks(tx.task);
    if T.OnCatalog(tx.task) {
      CatalogKeepsVersions(db, rules, tx.task, tx.seen, db');
    } else if tx.task.Create? {
      CreationWritesRegular(db, rules, tx.task, tx.seen, db', watch);
    } else {
      EntityWritesRegular(db, rules, tx, db', watch);
    }
  }

  lemma CatalogKeepsVersions(db: Db, rules: SchemaRules, task: T.Task, seen: T.Seen, db': Db)
    requires T.OnCatalog(task) && T.Writes(db, rules, task, seen, db')
    ensures db'.versions == db.versions
  {
  }

  lemma CreationWritesRegular(db: Db, rules: SchemaRules, task: T.Task, seen: T.Seen, db': Db, watch: Option<Watch>)
    requires Sound(db) && task.Create? && T.Writes(db, rules, task, seen, db') && HistoriesRegular(db.versions, watch) && IsRegular(task, seen, watch)
    ensures HistoriesRegular(db'.versions, watch)
  {
    hide Sound, HistoriesRegular, CreateWrites, CanBeStored;
    var Create(f, document, source, refs) := task;
    var e :| CreateWrites(db, e, f, seen.revision.value, document, source, refs, seen.key.value, db');
    CreateRegular(db, e, f, seen.revision.value, document, source, refs, seen.key.value, db', watch);
  }

  lemma EntityWritesRegular(db: Db, rules: SchemaRules, tx: T.Tx, db': Db, watch: Option<Watch>)
    requires Sound(db) && T.SeenHolds(db, tx) && T.Writes(db, rules, tx.task, tx.seen, db')
    requires !T.OnCatalog(tx.task) && !tx.task.Create? && forall x :: x in T.Locks(tx.task) ==> T.RowExists(db, tx.task, x)
    requires HistoriesRegular(db.versions, watch) && IsRegular(tx.task, tx.seen, watch)
    ensures HistoriesRegular(db'.versions, watch)
  {
    hide Sound, HistoriesRegular, RegularPair, RegularResolution, IsRegularIncoming, UpdateSpares, RefsOf, MaxVersion, HasDocument, Document,
      UpdateWrites, ResolveWrites, UpgradeWrites, MergeWrites, Spared;
    var seen := tx.seen;
    match tx.task
    case Update(e, document, source, refs) =>
      UpdateRegular(db, e, document, source, refs, seen.documents[e], seen.refs.value, seen.next, seen.key, db', watch);
    case Resolve(e, c, path, value) =>
      ResolveRegular(db, c, e, path, value, seen.documents[e], seen.next.value, seen.key.value, db', watch);
    case Upgrade(e, _) =>
      UpgradeRegular(db, e, seen.revision.value, rules, seen.documents[e], seen.next, seen.key, db', watch);
    case Merge(from, into) =>
      MergeRegular(db, from, into, seen.documents[from], seen.documents[into], seen.next.value, seen.key.value, db', watch);
  }

  // ---------- runs ----------

  lemma StepRegular(s: T.State, rules: SchemaRules, s': T.State, watch: Option<Watch>)
    requires T.Inv(s) && T.Next(s, rules, s') && HistoriesRegular(s.db.versions, watch)
    requires forall i :: T.Commits(s, rules, i, s') ==> IsRegular(s.txs[i].task, s.txs[i].seen, watch)
    ensures HistoriesRegular(s'.db.versions, watch)
  {
    hide HistoriesRegular, Sound, T.TxSound, T.Begins, T.Acquires, T.Reads, T.Claims, T.Aborts, T.SingleStatement, T.Writes, T.Wants, IsRegular, T.Exclusive, T.ClaimsRespected;
    if i :| T.Commits(s, rules, i, s') {
      WritesRegular(s.db, rules, s.txs[i], s'.db, watch);
    } else if T.SingleStatement(s, s') {
      SingleKeepsVersions(s, s', watch);
    } else {
      T.OnlyTransactionsChange(s, rules, s');
    }
  }

  lemma SingleKeepsVersions(s: T.State, s': T.State, watch: Option<Watch>)
    requires T.SingleStatement(s, s') && HistoriesRegular(s.db.versions, watch)
    ensures HistoriesRegular(s'.db.versions, watch)
  {
    hide HistoriesRegular, KeyFree, T.LockedByAny, T.ClaimedByAny, RemoveEntity;
    if e :| e in s.db.entities && s'.db == RemoveEntity(s.db, e) {
      RemovalKeepsVersions(s.db, e);
      SameVersions(s.db.versions, s'.db.versions, watch);
    }
  }

  lemma RemovalKeepsVersions(db: Db, e: Id)
    ensures forall k :: k in RemoveEntity(db, e).versions ==> k in db.versions && RemoveEntity(db, e).versions[k] == db.versions[k]
  {
  }

  lemma {:induction false} RunRegular(run: seq<T.State>, rules: SchemaRules, watch: Option<Watch>, k: nat)
    requires IsRegularRun(run, rules, watch) && k < |run|
    ensures HistoriesRegular(run[k].db.versions, watch)
  {
    hide T.Next, T.Inv, T.Commits, IsRegular;
    if k > 0 {
      RunRegular(run, rules, watch, k - 1);
      R.RunInv(run, rules, k - 1);
      StepRegular(run[k - 1], rules, run[k], watch);
    }
  }

  /** The documents of the versions of `e`, in order. */
  ghost function DocumentsOf(versions: map<VersionKey, Object>, e: Id): seq<Object>
    requires forall v :: VersionKey(e, v) in versions <==> 1 <= v <= MaxVersion(versions, e)
    requires MaxVersion(versions, e) >= 0
  {
    seq(MaxVersion(versions, e), i requires 0 <= i < MaxVersion(versions, e) => versions[VersionKey(e, i + 1)])
  }

  ghost predicate IsStored(versions: map<VersionKey, Object>, k: VersionKey) {
    k in versions && StoredWellFormed(versions[k])
  }

  /** What holds of two versions of a profile in a run of regular operations. */
  lemma VersionsRelate(run: seq<T.State>, rules: SchemaRules, watch: Option<Watch>, spared: Option<string>, k: nat, e: Id, v: int, w: int)
    requires IsRegularRun(run, rules, watch) && k < |run| && e in run[k].db.entities
    requires 1 <= v <= w <= MaxVersion(run[k].db.versions, e)
    requires forall u :: v <= u < w ==> spared.None? || Spared(watch, VersionKey(e, u)) == spared
    ensures
      var (a, b, versions) := (VersionKey(e, v), VersionKey(e, w), run[k].db.versions);
      IsStored(versions, a) && IsStored(versions, b) && Succeeds(View(versions[a]), View(versions[b])) &&
      (spared.Some? && ByHand(View(versions[a]), spared.value) ==>
        spared.value in View(versions[b]) && View(versions[b])[spared.value] == View(versions[a])[spared.value])
  {
    hide T.IsRun, View, WellFormed, Succeeds, MaxVersion, Spared, ByHand, HistoriesRegular;
    R.VersionsAreNumbered(run, rules, k, e);
    RunRegular(run, rules, watch, k);
    ChainRelates(run[k].db.versions, watch, spared, e, v, w);
  }

  /** Version 1 to n of an entity, each following regularly from the one before. */
  ghost predicate IsChain(docs: seq<Object>, watch: Option<Watch>, e: Id) {
    docs != [] && StoredWellFormed(docs[0]) &&
    forall i :: 0 <= i < |docs| - 1 ==> FollowsRegularly(docs[i], docs[i + 1], Spared(watch, VersionKey(e, i + 1)))
  }

  lemma DocumentsAreChain(versions: map<VersionKey, Object>, watch: Option<Watch>, e: Id)
    requires HistoriesRegular(versions, watch) && MaxVersion(versions, e) >= 1
    requires forall v :: VersionKey(e, v) in versions <==> 1 <= v <= MaxVersion(versions, e)
    ensures IsChain(DocumentsOf(versions, e), watch, e)
  {
    hide WellFormed, FollowsRegularly, MaxVersion, Spared;
    var docs := DocumentsOf(versions, e);
    forall i | 0 <= i < |docs| - 1 ensures FollowsRegularly(docs[i], docs[i + 1], Spared(watch, VersionKey(e, i + 1))) {
      assert VersionKey(e, i + 1).Next() == VersionKey(e, i + 2);
    }
  }

  lemma ChainRelates(versions: map<VersionKey, Object>, watch: Option<Watch>, spared: Option<string>, e: Id, v: int, w: int)
    requires HistoriesRegular(versions, watch) && 1 <= v <= w <= MaxVersion(versions, e)
    requires forall u :: VersionKey(e, u) in versions <==> 1 <= u <= MaxVersion(versions, e)
    requires forall u :: v <= u < w ==> spared.None? || Spared(watch, VersionKey(e, u)) == spared
    ensures
      var (a, b) := (VersionKey(e, v), VersionKey(e, w));
      IsStored(versions, a) && IsStored(versions, b) && Succeeds(View(versions[a]), View(versions[b])) &&
      (spared.Some? && ByHand(View(versions[a]), spared.value) ==>
        spared.value in View(versions[b]) && View(versions[b])[spared.value] == View(versions[a])[spared.value])
  {
    hide View, WellFormed, Succeeds, MaxVersion, Spared, ByHand, HistoriesRegular, IsChain;
    DocumentsAreChain(versions, watch, e);
    ChainSucceeds(DocumentsOf(versions, e), watch, spared, e, v, w);
  }

  lemma ChainSucceeds(docs: seq<Object>, watch: Option<Watch>, spared: Option<string>, e: Id, v: int, w: int)
    requires IsChain(docs, watch, e) && 1 <= v <= w <= |docs|
    requires forall u :: v <= u < w ==> spared.None? || Spared(watch, VersionKey(e, u)) == spared
    ensures
      StoredWellFormed(docs[v - 1]) && StoredWellFormed(docs[w - 1]) && Succeeds(View(docs[v - 1]), View(docs[w - 1])) &&
      (spared.Some? && ByHand(View(docs[v - 1]), spared.value) ==>
        spared.value in View(docs[w - 1]) && View(docs[w - 1])[spared.value] == View(docs[v - 1])[spared.value])
  {
    hide View, WellFormed, FollowsRegularly, Succeeds, Spared, ByHand;
    forall i | 0 <= i < |docs| - 1 ensures FollowsRegularly(docs[i], docs[i + 1], None) {
      WithoutSparing(docs[i], docs[i + 1], Spared(watch, VersionKey(e, i + 1)));
    }
    RegularChainSucceeds(docs, None, 0, v - 1);
    forall i | v - 1 <= i < w - 1 ensures FollowsRegularly(docs[i], docs[i + 1], spared) {
      assert spared.Some? ==> Spared(watch, VersionKey(e, i + 1)) == spared;
    }
    RegularChainSucceeds(docs, spared, v - 1, w - 1);
  }

  lemma WithoutSparing(doc: Object, doc': Object, spared: Option<string>)
    requires FollowsRegularly(doc, doc', spared)
    ensures FollowsRegularly(doc, doc', None)
  {
  }

  /** In a run of regular operations, under every interleaving, no later version of a profile
      loses a path of an earlier one or gives it a weaker source. */
  lemma VersionsNeverWeaken(run: seq<T.State>, rules: SchemaRules, k: nat, e: Id, v: int, w: int)
    requires IsRegularRun(run, rules, None) && k < |run| && e in run[k].db.entities
    requires 1 <= v <= w <= MaxVersion(run[k].db.versions, e)
    ensures
      var (a, b, versions) := (VersionKey(e, v), VersionKey(e, w), run[k].db.versions);
      IsStored(versions, a) && IsStored(versions, b) && Succeeds(View(versions[a]), View(versions[b]))
  {
    hide IsRegularRun, MaxVersion, View, WellFormed, Succeeds;
    VersionsRelate(run, rules, None, None, k, e, v, w);
  }

  /** The version decides `path` by hand. */
  ghost predicate ManualAt(versions: map<VersionKey, Object>, k: VersionKey, path: string) {
    IsStored(versions, k) && ByHand(View(versions[k]), path)
  }

  /** A path decided by hand is decided by hand in every later version. */
  lemma ManualStaysManual(run: seq<T.State>, rules: SchemaRules, k: nat, e: Id, v: int, w: int, path: string)
    requires IsRegularRun(run, rules, None) && k < |run| && e in run[k].db.entities
    requires 1 <= v <= w <= MaxVersion(run[k].db.versions, e)
    requires ManualAt(run[k].db.versions, VersionKey(e, v), path)
    ensures ManualAt(run[k].db.versions, VersionKey(e, w), path)
  {
    hide T.IsRun, View, WellFormed, MaxVersion, T.Commits, PriorityOf, Canonical, IsRegularRun;
    VersionsNeverWeaken(run, rules, k, e, v, w);
    var versions := run[k].db.versions;
    ManualIsStrongest(View(versions[VersionKey(e, v)])[path].source);
    ManualIsStrongest(View(versions[VersionKey(e, w)])[path].source);
  }

  /** The value itself stays, as long as nobody else decides about the path by hand: if no commit
      between the two versions is a manual decision about it, both have the same value there, from
      the same source. */
  lemma PinnedValueStays(run: seq<T.State>, rules: SchemaRules, k: nat, e: Id, v: int, w: int, path: string)
    requires IsRegularRun(run, rules, Some(Watch(e, v, w, path))) && k < |run| && e in run[k].db.entities
    requires 1 <= v <= w <= MaxVersion(run[k].db.versions, e)
    requires ManualAt(run[k].db.versions, VersionKey(e, v), path)
    ensures
      var (a, b, versions) := (VersionKey(e, v), VersionKey(e, w), run[k].db.versions);
      IsStored(versions, b) && path in View(versions[b]) && View(versions[b])[path] == View(versions[a])[path]
  {
    hide IsRegularRun, MaxVersion, View, WellFormed, Succeeds, ByHand;
    VersionsRelate(run, rules, Some(Watch(e, v, w, path)), Some(path), k, e, v, w);
  }
}
