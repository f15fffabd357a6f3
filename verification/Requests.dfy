/** What each transaction writes, as a function of what its earlier statements have read. */
module Requests {
  import opened Basics
  import opened JsonValues
  import opened AuthorityMerge
  import opened DuplicateMerge
  import opened History
  import opened ExternalRefs
  import opened ProfileSteps
  import opened Tables
  import opened Statements

  /** Which revision an upgrade asks for. */
  datatype Choice = ById(id: Id) | ByNumber(no: int) | Latest

  /** The schema language: when a document satisfies a schema, and which schemas may be published. */
  datatype SchemaRules = SchemaRules(accepts: (Object, Object) -> bool, publishable: Object -> bool)

  // ---------- the writes ----------

  ghost predicate CreateWrites(db: Db, e: Id, f: Id, r: Id, document: Object, source: string, refs: seq<Ref>, key: string, db': Db) {
    e !in db.issued && Revises(db, r, f) && RefsFree(db.mappings, e, refs) &&
    exists doc :: InitialOutcome(document, source, doc) && db' == Created(db, e, f, r, key, doc, refs)
  }

  predicate Revises(db: Db, r: Id, f: Id) {
    f in db.families && r in db.revisions && db.revisions[r].family == f
  }

  function Created(db: Db, e: Id, f: Id, r: Id, key: string, doc: Object, refs: seq<Ref>): Db
    requires Revises(db, r, f)
  {
    WithRefs(AddVersion(AddEntity(db, e, Entity(f, r)), e, key, 1, doc), e, refs)
  }

  function WithRefs(db: Db, e: Id, refs: seq<Ref>): Db {
    db.(mappings := ReplaceRefs(db.mappings, e, refs))
  }

  predicate VersionFree(db: Db, e: Id, version: int) {
    VersionKey(e, version) !in db.versions
  }

  /** An update records its conflicts, and then writes a version unless neither the document nor
      the references change. */
  ghost predicate UpdateWrites(db: Db, e: Id, document: Object, source: string, refs: seq<Ref>,
                               current: Object, have: set<Ref>, next: Option<int>, key: Option<string>, db': Db) {
    exists doc, candidates, changed, ids ::
      ApplyOutcome(current, document, source, doc, candidates, changed) &&
      |ids| == |candidates| && FreshIds(db, ids) && Bound(db, e) &&
      UpdateStores(AddConflicts(db, e, candidates, ids), e, if changed then doc else current, changed || RefsDiffer(have, refs), refs, next, key, db')
  }

  ghost predicate UpdateStores(db: Db, e: Id, doc: Object, changed: bool, refs: seq<Ref>, next: Option<int>, key: Option<string>, db': Db) {
    if !changed then db' == db
    else
      next.Some? && key.Some? && Bound(db, e) && VersionFree(db, e, next.value) && RefsFree(db.mappings, e, refs) &&
      db' == WithRefs(AddVersion(db, e, key.value, next.value, doc), e, refs)
  }

  ghost predicate ResolveWrites(db: Db, c: Id, e: Id, path: string, value: Json, current: Object, next: int, key: string, db': Db) {
    Bound(db, e) && VersionFree(db, e, next) &&
    exists doc :: ResolveOutcome(current, path, value, doc) && db' == WithResolution(db, c, e, next, key, doc)
  }

  function WithResolution(db: Db, c: Id, e: Id, next: int, key: string, doc: Object): Db
    requires Bound(db, e)
  {
    var db1 := AddVersion(db, e, key, next, doc);
    if c in db1.conflicts then MarkResolved(db1, c) else db1
  }

  /** An upgrade to the revision the entity is bound to already writes nothing. */
  ghost predicate UpgradeWrites(db: Db, e: Id, r: Id, rules: SchemaRules, current: Object, next: Option<int>, key: Option<string>, db': Db) {
    e in db.entities && r in db.revisions &&
    if db.entities[e].revision == r then db' == db
    else
      next.Some? && key.Some? && rules.accepts(db.revisions[r].schema, current) && Bound(Bind(db, e, r), e) && VersionFree(db, e, next.value) &&
      db' == AddVersion(Bind(db, e, r), e, key.value, next.value, current)
  }

  ghost predicate MergeWrites(db: Db, source: Id, target: Id, sourceDoc: Object, targetDoc: Object, next: int, key: string, db': Db) {
    source in db.entities && Bound(db, target) && db.entities[source].family == db.entities[target].family &&
    SharedRefs(db.mappings, source, target) == {} && VersionFree(db, target, next) &&
    exists doc :: DuplicateOutcome(targetDoc, sourceDoc, doc) && db' == Merged(db, source, target, next, key, doc)
  }

  function Moved(db: Db, source: Id, target: Id): Db {
    db.(mappings := MoveMappings(db.mappings, source, target))
  }

  function Merged(db: Db, source: Id, target: Id, next: int, key: string, doc: Object): Db
    requires Bound(db, target)
  {
    RemoveEntity(AddVersion(Moved(db, source, target), target, key, next, doc), source)
  }

  // ---------- what the writes keep ----------

  lemma CreateSound(db: Db, e: Id, f: Id, r: Id, document: Object, source: string, refs: seq<Ref>, key: string, db': Db)
    requires Sound(db) && CreateWrites(db, e, f, r, document, source, refs, key, db')
    ensures Sound(db') && Changes(db, db', {e}) && e in db'.entities && MaxVersion(db'.versions, e) == 1
    ensures RefsOf(db'.mappings, e) == set x | x in TrimmedAll(refs)
  {
    hide Consistent, Changes, UpToDate, InitialOutcome, Follows, MaxVersion, RefsOf, TrimmedAll, AddVersion;
    var doc :| InitialOutcome(document, source, doc) && db' == Created(db, e, f, r, key, doc, refs);
    var db1 := AddEntity(db, e, Entity(f, r));
    var db2 := AddVersion(db1, e, key, 1, doc);
    assert IsFirst(doc);
    AddEntitySound(db, e, Entity(f, r));
    AddVersionSound(db1, e, key, doc);
    AddVersionOnly(db1, e, key, 1, doc);
    ReplaceRefsSound(db2, e, refs);
    ChangesTransitive(db, db1, db2, {e});
    ChangesTransitive(db, db2, db', {e});
  }

  lemma AddVersionOnly(db: Db, e: Id, key: string, version: int, doc: Object)
    requires Bound(db, e)
    ensures
      var db' := AddVersion(db, e, key, version, doc);
      db' == db.(versions := db'.versions, outbox := db'.outbox)
  {
  }

  lemma UpdateSound(db: Db, e: Id, document: Object, source: string, refs: seq<Ref>,
                    current: Object, have: set<Ref>, next: Option<int>, key: Option<string>, db': Db)
    requires Sound(db) && e in db.entities && HasDocument(db, e) && current == Document(db, e)
    requires next.Some? ==> next.value == MaxVersion(db.versions, e) + 1
    requires UpdateWrites(db, e, document, source, refs, current, have, next, key, db')
    ensures Sound(db') && Changes(db, db', {e})
  {
    hide Consistent, Changes, UpToDate, MaxVersion, UpdateStores, ApplyOutcome, RefsDiffer, Follows;
    var doc, candidates, changed, ids :|
      ApplyOutcome(current, document, source, doc, candidates, changed) &&
      |ids| == |candidates| && FreshIds(db, ids) &&
      UpdateStores(AddConflicts(db, e, candidates, ids), e, if changed then doc else current, changed || RefsDiffer(have, refs), refs, next, key, db');
    var db1 := AddConflicts(db, e, candidates, ids);
    AddConflictsSound(db, e, candidates, ids);
    UpdateFollows(current, document, source, doc, candidates, changed);
    UpdateStoresSound(db1, e, if changed then doc else current, changed || RefsDiffer(have, refs), refs, next, key, db');
    Widen(db, db1, {}, {e});
    ChangesTransitive(db, db1, db', {e});
  }

  lemma UpdateFollows(current: Object, document: Object, source: string, doc: Object,
                      candidates: seq<ConflictCandidate>, changed: bool)
    requires ApplyOutcome(current, document, source, doc, candidates, changed)
    ensures Follows(current, if changed then doc else current)
  {
    hide ApplyOutcomeVia;
    if changed {
      var cur, inc, data, order :| ApplyOutcomeVia(current, document, source, doc, candidates, changed, cur, inc, data, order);
      assert OutcomeFrom(current, document, source, doc, candidates, changed, inc);
      assert Makes(current, Updated(inc, source), doc);
    } else {
      assert Makes(current, Unchanged, current);
    }
  }

  lemma Widen(db: Db, db': Db, touched: set<Id>, more: set<Id>)
    requires Changes(db, db', touched) && touched <= more
    ensures Changes(db, db', more)
  {
  }

  lemma UpdateStoresSound(db: Db, e: Id, doc: Object, changed: bool, refs: seq<Ref>, next: Option<int>, key: Option<string>, db': Db)
    requires Sound(db) && e in db.entities && HasDocument(db, e) && Follows(Document(db, e), doc)
    requires next.Some? ==> next.value == MaxVersion(db.versions, e) + 1
    requires UpdateStores(db, e, doc, changed, refs, next, key, db')
    ensures Sound(db') && Changes(db, db', {e})
  {
    hide Consistent, Changes, UpToDate, MaxVersion, Follows, AddVersion, RefsOf;
    NothingChanges(db);
    Widen(db, db, {}, {e});
    if changed {
      var db1 := AddVersion(db, e, key.value, next.value, doc);
      AddVersionSound(db, e, key.value, doc);
      AddVersionOnly(db, e, key.value, next.value, doc);
      ReplaceRefsSound(db1, e, refs);
      ChangesTransitive(db, db1, db', {e});
    }
  }

  lemma ResolveSound(db: Db, c: Id, e: Id, path: string, value: Json, current: Object, next: int, key: string, db': Db)
    requires Sound(db) && e in db.entities && HasDocument(db, e) && current == Document(db, e)
    requires next == MaxVersion(db.versions, e) + 1
    requires ResolveWrites(db, c, e, path, value, current, next, key, db')
    ensures Sound(db') && Changes(db, db', {e})
  {
    hide Consistent, Changes, UpToDate, MaxVersion, ResolveOutcome, AddVersion;
    var doc :| ResolveOutcome(current, path, value, doc) && db' == WithResolution(db, c, e, next, key, doc);
    assert Follows(current, doc) by { assert Makes(current, ResolvedAt(path, value), doc); }
    hide Follows;
    var db1 := AddVersion(db, e, key, next, doc);
    AddVersionSound(db, e, key, doc);
    if c in db1.conflicts {
      MarkResolvedSound(db1, c);
      Widen(db1, db', {}, {e});
      ChangesTransitive(db, db1, db', {e});
    }
  }

  lemma UpgradeSound(db: Db, e: Id, r: Id, rules: SchemaRules, current: Object, next: Option<int>, key: Option<string>, db': Db)
    requires Sound(db) && e in db.entities && HasDocument(db, e) && current == Document(db, e)
    requires next.Some? ==> next.value == MaxVersion(db.versions, e) + 1
    requires r in db.revisions && db.revisions[r].family == db.entities[e].family
    requires UpgradeWrites(db, e, r, rules, current, next, key, db')
    ensures Sound(db') && Changes(db, db', {e})
  {
    hide Consistent, Changes, UpToDate, MaxVersion, AddVersion;
    NothingChanges(db);
    Widen(db, db, {}, {e});
    if db.entities[e].revision != r {
      var db1 := Bind(db, e, r);
      assert Follows(current, current) by { assert Makes(current, Unchanged, current); }
      BindSound(db, e, r);
      AddVersionSound(db1, e, key.value, current);
      ChangesTransitive(db, db1, db', {e});
    }
  }

  lemma MergeSound(db: Db, source: Id, target: Id, sourceDoc: Object, targetDoc: Object, next: int, key: string, db': Db)
    requires Sound(db) && target in db.entities && source != target && HasDocument(db, target) && targetDoc == Document(db, target)
    requires next == MaxVersion(db.versions, target) + 1
    requires MergeWrites(db, source, target, sourceDoc, targetDoc, next, key, db')
    ensures Sound(db') && Changes(db, db', {source, target})
  {
    hide Consistent, Changes, UpToDate, MaxVersion, AddVersion, MoveMappings, DuplicateOutcome, SharedRefs, RemoveEntity;
    var doc :| DuplicateOutcome(targetDoc, sourceDoc, doc) && db' == Merged(db, source, target, next, key, doc);
    assert Follows(targetDoc, doc) by { assert Makes(targetDoc, MergedWith(sourceDoc), doc); }
    hide Follows;
    var db1 := Moved(db, source, target);
    var db2 := AddVersion(db1, target, key, next, doc);
    MoveMappingsSound(db, source, target);
    AddVersionSound(db1, target, key, doc);
    Widen(db1, db2, {target}, {source, target});
    RemoveEntitySound(db2, source);
    Widen(db2, db', {source}, {source, target});
    ChangesTransitive(db, db1, db2, {source, target});
    ChangesTransitive(db, db2, db', {source, target});
  }
}
