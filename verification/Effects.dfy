/** What each transaction leaves in the tables, said of the rows themselves: which document becomes
    current, which rows appear, change and go, and that every other row is as before. */
module Effects {
  import opened Basics
  import opened Text
  import opened JsonValues
  import opened Maps
  import opened ProfileViews
  import opened DocumentPaths
  import opened AuthorityMerge
  import opened DuplicateMerge
  import opened History
  import opened ExternalRefs
  import opened Tables
  import opened Statements
  import opened CatalogStatements
  import opened Requests
  import opened Transactions

  // ---------- rows ----------

  /** `doc` becomes the next version of `e`. Its event carries the type key that was read and the
      revision that `e` is bound to, with that revision's number. */
  ghost predicate StoresVersion(db: Db, db': Db, e: Id, key: string, doc: Object) {
    var k := VersionKey(e, MaxVersion(db.versions, e) + 1);
    k !in db.versions && k !in db.outbox && IsEvent(db', e, key, k) &&
    db'.versions == db.versions[k := doc] && db'.outbox == db.outbox[k := db'.outbox[k]]
  }

  ghost predicate IsEvent(db: Db, e: Id, key: string, k: VersionKey) {
    e in db.entities && db.entities[e].revision in db.revisions && k in db.outbox &&
    db.outbox[k] == Event(key, db.entities[e].revision, db.revisions[db.entities[e].revision].no)
  }

  /** One new open conflict of `e` for each candidate; the conflicts there were are as before. */
  ghost predicate RecordsConflicts(db: Db, db': Db, e: Id, candidates: seq<ConflictCandidate>, ids: seq<Id>) {
    |ids| == |candidates| && (forall i, j :: 0 <= i < j < |ids| ==> ids[i] != ids[j]) &&
    (forall i :: 0 <= i < |ids| ==> ids[i] !in db.issued && ids[i] in db'.conflicts && db'.conflicts[ids[i]] == Conflict(e, candidates[i], Open)) &&
    (forall c :: c in db'.conflicts <==> c in db.conflicts || c in ids) &&
    (forall c :: c in db.conflicts && c !in ids ==> db'.conflicts[c] == db.conflicts[c]) &&
    db'.issued == db.issued + (set c | c in ids)
  }

  /** `e` has exactly the references that were asked for, without spaces around their parts, and every
      other entity has what it had. */
  ghost predicate HasReferences(before: set<Mapping>, after: set<Mapping>, e: Id, refs: seq<Ref>) {
    forall m :: m in after <==> if m.entity == e then IsAskedFor(m.ref, refs) else m in before
  }

  ghost predicate IsAskedFor(ref: Ref, refs: seq<Ref>) {
    exists i :: 0 <= i < |refs| && ref == Ref(TrimSpace(refs[i].sourceSystem), TrimSpace(refs[i].externalId))
  }

  // ---------- transactions ----------

  /** A new entity under a fresh id, bound to the revision, with version 1 and the references. */
  ghost predicate CreateDoes(db: Db, e: Id, f: Id, r: Id, document: Object, source: string, refs: seq<Ref>, key: string, db': Db) {
    e !in db.issued && r in db.revisions && db.revisions[r].family == f &&
    MaxVersion(db.versions, e) == 0 &&
    (exists doc :: InitialOutcome(document, source, doc) && StoresVersion(db, db', e, key, doc)) &&
    HasReferences(db.mappings, db'.mappings, e, refs) &&
    db' == db.(entities := db.entities[e := Entity(f, r)], versions := db'.versions, outbox := db'.outbox,
               mappings := db'.mappings, issued := db.issued + {e})
  }

  /** The conflicts are recorded in any case. A version is written when the document or the references
      change: the merged document if that is what changed, else the present one. */
  ghost predicate UpdateDoes(db: Db, e: Id, document: Object, source: string, refs: seq<Ref>, key: Option<string>, db': Db) {
    HasDocument(db, e) &&
    exists merged, candidates, changed, ids ::
      ApplyOutcome(Document(db, e), document, source, merged, candidates, changed) &&
      UpdateLeaves(db, e, merged, candidates, changed, ids, refs, key, db')
  }

  ghost predicate UpdateLeaves(db: Db, e: Id, merged: Object, candidates: seq<ConflictCandidate>, changed: bool, ids: seq<Id>,
                               refs: seq<Ref>, key: Option<string>, db': Db)
    requires HasDocument(db, e)
  {
    RecordsConflicts(db, db', e, candidates, ids) &&
    db' == db.(versions := db'.versions, outbox := db'.outbox, mappings := db'.mappings, conflicts := db'.conflicts, issued := db'.issued) &&
    if changed || multiset(RefsOf(db.mappings, e)) != multiset(refs) then
      key.Some? && StoresVersion(db, db', e, key.value, if changed then merged else Document(db, e)) &&
      HasReferences(db.mappings, db'.mappings, e, refs)
    else
      db'.versions == db.versions && db'.outbox == db.outbox && db'.mappings == db.mappings
  }

  /** The document with the path set by hand becomes current, and this conflict, if it is still there,
      is resolved; no other conflict changes. */
  ghost predicate ResolveDoes(db: Db, c: Id, e: Id, path: string, value: Json, key: string, db': Db) {
    HasDocument(db, e) &&
    (exists doc :: ResolveOutcome(Document(db, e), path, value, doc) && StoresVersion(db, db', e, key, doc)) &&
    db' == db.(versions := db'.versions, outbox := db'.outbox, conflicts := db'.conflicts) &&
    OnlyResolves(db.conflicts, db'.conflicts, c)
  }

  ghost predicate OnlyResolves(before: map<Id, Conflict>, after: map<Id, Conflict>, c: Id) {
    after.Keys == before.Keys && (forall x :: x in before && x != c ==> after[x] == before[x]) &&
    (c in before ==> after[c] == Conflict(before[c].entity, before[c].candidate, Resolved))
  }

  /** The entity is bound to the revision, whose schema accepts its document, and the document becomes
      its next version; nothing happens when it is bound to that revision already. */
  ghost predicate UpgradeDoes(db: Db, e: Id, r: Id, rules: SchemaRules, key: Option<string>, db': Db) {
    e in db.entities && HasDocument(db, e) && r in db.revisions && db.revisions[r].family == db.entities[e].family &&
    if db.entities[e].revision == r then db' == db
    else
      rules.accepts(db.revisions[r].schema, Document(db, e)) &&
      key.Some? && StoresVersion(db, db', e, key.value, Document(db, e)) &&
      db' == db.(entities := db.entities[e := Entity(db.entities[e].family, r)], versions := db'.versions, outbox := db'.outbox)
  }

  /** The merged document becomes current for `into`, which takes over the references of `from`; `from`
      goes with its versions, events and conflicts. */
  ghost predicate MergeDoes(db: Db, from: Id, into: Id, key: string, db': Db) {
    HasDocument(db, from) && HasDocument(db, into) && from in db.entities &&
    exists doc :: DuplicateOutcome(Document(db, into), Document(db, from), doc) && MergeLeaves(db, from, into, key, doc, db')
  }

  ghost predicate MergeLeaves(db: Db, from: Id, into: Id, key: string, doc: Object, db': Db) {
    var k := VersionKey(into, MaxVersion(db.versions, into) + 1);
    k !in db.versions && k !in db.outbox && k in db'.versions && db'.versions[k] == doc && IsEvent(db', into, key, k) &&
    (forall x :: x != k ==> (x in db'.versions <==> x in db.versions && x.entity != from)) &&
    (forall x :: x != k && x in db'.versions ==> db'.versions[x] == db.versions[x]) &&
    (forall x :: x != k ==> (x in db'.outbox <==> x in db.outbox && x.entity != from)) &&
    (forall x :: x != k && x in db'.outbox ==> db'.outbox[x] == db.outbox[x]) &&
    (forall m :: m in db'.mappings <==>
      if m.entity == into then m in db.mappings || Mapping(m.ref, from) in db.mappings else m.entity != from && m in db.mappings) &&
    (forall c :: c in db'.conflicts <==> c in db.conflicts && db.conflicts[c].entity != from) &&
    (forall c :: c in db'.conflicts ==> db'.conflicts[c] == db.conflicts[c]) &&
    db' == db.(entities := db.entities - {from}, versions := db'.versions, outbox := db'.outbox, mappings := db'.mappings, conflicts := db'.conflicts)
  }

  /** The draft's schema becomes the next revision. */
  ghost predicate PublishDoes(db: Db, f: Id, rules: SchemaRules, db': Db) {
    f in db.drafts && rules.publishable(db.drafts[f].schema) &&
    exists r :: r !in db.issued &&
      db' == db.(revisions := db.revisions[r := Revision(f, MaxRevision(db.revisions, f) + 1, db.drafts[f].schema)], issued := db.issued + {r})
  }

  /** The draft takes the schema and its version grows by one. */
  ghost predicate SaveDraftDoes(db: Db, f: Id, schema: Object, expected: Option<int>, db': Db) {
    f in db.drafts && (expected.Some? ==> expected.value == db.drafts[f].version) &&
    db' == db.(drafts := db.drafts[f := Draft(schema, db.drafts[f].version + 1)])
  }

  /** A family without entities goes with its draft and its revisions. */
  ghost predicate DeleteFamilyDoes(db: Db, f: Id, db': Db) {
    f in db.families && (forall e :: e in db.entities ==> db.entities[e].family != f) &&
    (forall r :: r in db'.revisions <==> r in db.revisions && db.revisions[r].family != f) &&
    (forall r :: r in db'.revisions ==> db'.revisions[r] == db.revisions[r]) &&
    db' == db.(families := db.families - {f}, drafts := db.drafts - {f}, revisions := db'.revisions)
  }

  /** The entity goes with its versions, events, references and conflicts. */
  ghost predicate DeleteDoes(db: Db, e: Id, db': Db) {
    e in db.entities &&
    (forall k :: k in db'.versions <==> k in db.versions && k.entity != e) &&
    (forall k :: k in db'.versions ==> db'.versions[k] == db.versions[k]) &&
    (forall k :: k in db'.outbox <==> k in db.outbox && k.entity != e) &&
    (forall k :: k in db'.outbox ==> db'.outbox[k] == db.outbox[k]) &&
    (forall m :: m in db'.mappings <==> m in db.mappings && m.entity != e) &&
    (forall c :: c in db'.conflicts <==> c in db.conflicts && db.conflicts[c].entity != e) &&
    (forall c :: c in db'.conflicts ==> db'.conflicts[c] == db.conflicts[c]) &&
    db' == db.(entities := db.entities - {e}, versions := db'.versions, outbox := db'.outbox, mappings := db'.mappings, conflicts := db'.conflicts)
  }

  // ---------- the statements have these effects ----------

  lemma VersionStored(db: Db, e: Id, key: string, doc: Object)
    requires Sound(db) && Bound(db, e)
    ensures StoresVersion(db, AddVersion(db, e, key, MaxVersion(db.versions, e) + 1, doc), e, key, doc)
  {
    hide CatalogSound, BindingsSound, EventsSound, HistoriesSound, MappingsSound, ConflictsSound, UpToDate, MaxVersion;
    assert Numbered(db.versions, e);
  }

  lemma ReferencesReplaced(mappings: set<Mapping>, e: Id, refs: seq<Ref>)
    ensures HasReferences(mappings, ReplaceRefs(mappings, e, refs), e, refs)
  {
    hide IsAskedFor, TrimmedAll;
    AskedForIsTrimmed(refs);
  }

  lemma AskedForIsTrimmed(refs: seq<Ref>)
    ensures forall x :: IsAskedFor(x, refs) <==> x in TrimmedAll(refs)
  {
    forall x ensures IsAskedFor(x, refs) <==> x in TrimmedAll(refs) {
      if IsAskedFor(x, refs) {
        var i :| 0 <= i < |refs| && x == Ref(TrimSpace(refs[i].sourceSystem), TrimSpace(refs[i].externalId));
        assert TrimmedAll(refs)[i] == x;
      }
      if x in TrimmedAll(refs) {
        var i :| 0 <= i < |refs| && TrimmedAll(refs)[i] == x;
        assert x == Ref(TrimSpace(refs[i].sourceSystem), TrimSpace(refs[i].externalId));
      }
    }
  }

  lemma {:induction false} ConflictsAreRecorded(db: Db, e: Id, candidates: seq<ConflictCandidate>, ids: seq<Id>)
    requires |ids| == |candidates| && FreshIds(db, ids)
    ensures
      var db' := AddConflicts(db, e, candidates, ids);
      RecordsConflicts(db, db', e, candidates, ids) && OnlyConflictsDiffer(db, db')
    decreases |ids|
  {
    hide RecordsConflicts;
    if ids != [] {
      var n := |ids| - 1;
      ConflictsAreRecorded(db, e, candidates[..n], ids[..n]);
      OneMoreRecorded(db, AddConflicts(db, e, candidates[..n], ids[..n]), e, candidates, ids);
    } else {
      NothingRecorded(db, e);
    }
  }

  lemma NothingRecorded(db: Db, e: Id)
    ensures RecordsConflicts(db, db, e, [], [])
  {
  }

  lemma OneMoreRecorded(db: Db, mid: Db, e: Id, candidates: seq<ConflictCandidate>, ids: seq<Id>)
    requires |ids| == |candidates| > 0 && FreshIds(db, ids)
    requires RecordsConflicts(db, mid, e, candidates[..|ids| - 1], ids[..|ids| - 1])
    ensures RecordsConflicts(db, AddConflict(mid, ids[|ids| - 1], Conflict(e, candidates[|ids| - 1], Open)), e, candidates, ids)
  {
    var n := |ids| - 1;
    var db' := AddConflict(mid, ids[n], Conflict(e, candidates[n], Open));
    forall i | 0 <= i < |ids|
      ensures ids[i] !in db.issued && ids[i] in db'.conflicts && db'.conflicts[ids[i]] == Conflict(e, candidates[i], Open)
    {
      if i < n { assert ids[..n][i] == ids[i] && candidates[..n][i] == candidates[i]; }
    }
    forall c ensures c in ids <==> c in ids[..n] || c == ids[n] {
      if c in ids { var i :| 0 <= i < |ids| && ids[i] == c; assert i < n ==> ids[..n][i] == c; }
      if c in ids[..n] { var i :| 0 <= i < n && ids[..n][i] == c; assert ids[i] == c; }
    }
  }

  lemma DeletionDoes(db: Db, e: Id)
    requires e in db.entities
    ensures DeleteDoes(db, e, RemoveEntity(db, e))
  {
  }

  // ---------- what a transaction writes on the strength of what it has read ----------

  lemma UpdateIsDone(db: Db, e: Id, document: Object, source: string, refs: seq<Ref>, next: Option<int>, key: Option<string>, db': Db)
    requires Sound(db) && HasDocument(db, e) && (next.Some? ==> next.value == MaxVersion(db.versions, e) + 1)
    requires UpdateWrites(db, e, document, source, refs, Document(db, e), RefsOf(db.mappings, e), next, key, db')
    ensures UpdateDoes(db, e, document, source, refs, key, db')
  {
    hide Sound, ApplyOutcome, MaxVersion, RecordsConflicts, StoresVersion, AddConflicts, FreshIds, HasReferences, RefsOf, UpdateStores, Bound;
    var current, have := Document(db, e), RefsOf(db.mappings, e);
    var merged, candidates, changed, ids :|
      ApplyOutcome(current, document, source, merged, candidates, changed) &&
      |ids| == |candidates| && FreshIds(db, ids) && Bound(db, e) &&
      UpdateStores(AddConflicts(db, e, candidates, ids), e, if changed then merged else current, changed || RefsDiffer(have, refs), refs, next, key, db');
    ConflictsAreRecorded(db, e, candidates, ids);
    var mid := AddConflicts(db, e, candidates, ids);
    UpdateIsStored(db, mid, e, if changed then merged else current, changed || RefsDiffer(have, refs), refs, next, key, db');
    SameConflicts(db, mid, db', e, candidates, ids);
    assert UpdateLeaves(db, e, merged, candidates, changed, ids, refs, key, db');
  }

  lemma UpdateIsStored(db: Db, mid: Db, e: Id, doc: Object, changed: bool, refs: seq<Ref>, next: Option<int>, key: Option<string>, db': Db)
    requires Sound(db) && Bound(db, e) && OnlyConflictsDiffer(db, mid) && (next.Some? ==> next.value == MaxVersion(db.versions, e) + 1)
    requires UpdateStores(mid, e, doc, changed, refs, next, key, db')
    ensures db' == db.(versions := db'.versions, outbox := db'.outbox, mappings := db'.mappings, conflicts := mid.conflicts, issued := mid.issued)
    ensures
      if changed then key.Some? && StoresVersion(db, db', e, key.value, doc) && HasReferences(db.mappings, db'.mappings, e, refs)
      else db'.versions == db.versions && db'.outbox == db.outbox && db'.mappings == db.mappings
  {
    hide Sound, MaxVersion, StoresVersion, AddVersion, HasReferences, ReplaceRefs, RefsFree;
    if changed {
      WrittenWithRefs(mid, e, key.value, next.value, doc, refs);
      VersionStored(db, e, key.value, doc);
      VersionBeside(db, mid, e, key.value, doc, db');
      ReferencesReplaced(db.mappings, e, refs);
    }
  }

  lemma SameConflicts(db: Db, mid: Db, db': Db, e: Id, candidates: seq<ConflictCandidate>, ids: seq<Id>)
    requires RecordsConflicts(db, mid, e, candidates, ids) && db'.conflicts == mid.conflicts && db'.issued == mid.issued
    ensures RecordsConflicts(db, db', e, candidates, ids)
  {
  }

  lemma WrittenWithRefs(db: Db, e: Id, key: string, version: int, doc: Object, refs: seq<Ref>)
    requires Bound(db, e)
    ensures
      var after := AddVersion(db, e, key, version, doc);
      WithRefs(after, e, refs) == db.(versions := after.versions, outbox := after.outbox, mappings := ReplaceRefs(db.mappings, e, refs))
  {
  }

  /** The version is stored all the same when other tables have changed. */
  lemma VersionBeside(db: Db, mid: Db, e: Id, key: string, doc: Object, db': Db)
    requires Bound(db, e) && StoresVersion(db, AddVersion(db, e, key, MaxVersion(db.versions, e) + 1, doc), e, key, doc)
    requires mid.entities == db.entities && mid.versions == db.versions && mid.outbox == db.outbox && mid.revisions == db.revisions && Bound(mid, e)
    requires
      var after := AddVersion(mid, e, key, MaxVersion(db.versions, e) + 1, doc);
      db'.entities == mid.entities && db'.revisions == mid.revisions && db'.versions == after.versions && db'.outbox == after.outbox
    ensures StoresVersion(db, db', e, key, doc)
  {
    hide MaxVersion;
  }

  lemma ResolveIsDone(db: Db, c: Id, e: Id, path: string, value: Json, next: int, key: string, db': Db)
    requires Sound(db) && HasDocument(db, e) && next == MaxVersion(db.versions, e) + 1
    requires ResolveWrites(db, c, e, path, value, Document(db, e), next, key, db')
    ensures ResolveDoes(db, c, e, path, value, key, db')
  {
    hide Sound, MaxVersion, ResolveOutcome, StoresVersion, AddVersion;
    var doc :| ResolveOutcome(Document(db, e), path, value, doc) && db' == WithResolution(db, c, e, next, key, doc);
    var mid := AddVersion(db, e, key, next, doc);
    AddVersionOnly(db, e, key, next, doc);
    VersionStored(db, e, key, doc);
    VersionBeside(db, db, e, key, doc, db');
  }

  lemma UpgradeIsDone(db: Db, e: Id, r: Id, rules: SchemaRules, next: Option<int>, key: Option<string>, db': Db)
    requires Sound(db) && HasDocument(db, e) && (next.Some? ==> next.value == MaxVersion(db.versions, e) + 1)
    requires UpgradeWrites(db, e, r, rules, Document(db, e), next, key, db') && db.revisions[r].family == db.entities[e].family
    ensures UpgradeDoes(db, e, r, rules, key, db')
  {
    hide Sound, MaxVersion, StoresVersion, AddVersion;
    if db.entities[e].revision != r {
      var mid := Bind(db, e, r);
      AddVersionOnly(mid, e, key.value, next.value, Document(db, e));
      NewlyBound(db, e, r, key.value, Document(db, e));
    }
  }

  lemma NewlyBound(db: Db, e: Id, r: Id, key: string, doc: Object)
    requires Sound(db) && e in db.entities && Bound(Bind(db, e, r), e)
    ensures StoresVersion(db, AddVersion(Bind(db, e, r), e, key, MaxVersion(db.versions, e) + 1, doc), e, key, doc)
  {
    hide CatalogSound, BindingsSound, EventsSound, HistoriesSound, MappingsSound, ConflictsSound, UpToDate, MaxVersion;
    assert Numbered(db.versions, e);
  }

  lemma MergeIsDone(db: Db, from: Id, into: Id, next: int, key: string, db': Db)
    requires Sound(db) && from != into && HasDocument(db, from) && HasDocument(db, into) && next == MaxVersion(db.versions, into) + 1
    requires MergeWrites(db, from, into, Document(db, from), Document(db, into), next, key, db')
    ensures MergeDoes(db, from, into, key, db')
  {
    hide Sound, MaxVersion, DuplicateOutcome, MergeLeaves, SharedRefs;
    var doc :| DuplicateOutcome(Document(db, into), Document(db, from), doc) && db' == Merged(db, from, into, next, key, doc);
    MergedLeaves(db, from, into, key, doc);
  }

  lemma MergedLeaves(db: Db, from: Id, into: Id, key: string, doc: Object)
    requires Sound(db) && from != into && from in db.entities && Bound(db, into)
    ensures MergeLeaves(db, from, into, key, doc, Merged(db, from, into, MaxVersion(db.versions, into) + 1, key, doc))
  {
    hide Sound, MaxVersion, AddVersion, MoveMappings, DeleteDoes, StoresVersion, RemoveEntity, MergeLeaves;
    var moved := Moved(db, from, into);
    var mid := AddVersion(moved, into, key, MaxVersion(db.versions, into) + 1, doc);
    AddVersionOnly(moved, into, key, MaxVersion(db.versions, into) + 1, doc);
    VersionStored(db, into, key, doc);
    VersionBeside(db, moved, into, key, doc, mid);
    ReferencesMoved(db.mappings, from, into);
    DeletionDoes(mid, from);
    StoredThenDeleted(db, mid, from, into, key, doc, RemoveEntity(mid, from));
  }

  ghost predicate AreMoved(before: set<Mapping>, after: set<Mapping>, from: Id, into: Id) {
    forall m :: m in after <==> m.entity != from && if m.entity == into then m in before || Mapping(m.ref, from) in before else m in before
  }

  lemma ReferencesMoved(mappings: set<Mapping>, from: Id, into: Id)
    requires from != into
    ensures AreMoved(mappings, MoveMappings(mappings, from, into), from, into)
  {
    var after := MoveMappings(mappings, from, into);
    forall m ensures m in after <==> m.entity != from && if m.entity == into then m in mappings || Mapping(m.ref, from) in mappings else m in mappings {
      if m.entity == into && Mapping(m.ref, from) in mappings { assert MoveMapping(Mapping(m.ref, from), from, into) == m; }
      if m.entity != from && m in mappings { assert MoveMapping(m, from, into) == m; }
    }
  }

  lemma StoredThenDeleted(db: Db, mid: Db, from: Id, into: Id, key: string, doc: Object, db': Db)
    requires from != into && StoresVersion(db, mid, into, key, doc) && DeleteDoes(mid, from, db')
    requires mid == db.(versions := mid.versions, outbox := mid.outbox, mappings := mid.mappings) && AreMoved(db.mappings, mid.mappings, from, into)
    ensures MergeLeaves(db, from, into, key, doc, db')
  {
    hide MaxVersion;
  }

  lemma CreateIsDone(db: Db, e: Id, f: Id, r: Id, document: Object, source: string, refs: seq<Ref>, key: string, db': Db)
    requires Sound(db) && CreateWrites(db, e, f, r, document, source, refs, key, db')
    ensures CreateDoes(db, e, f, r, document, source, refs, key, db')
  {
    hide Sound, MaxVersion, InitialOutcome, StoresVersion, AddVersion, HasReferences, ReplaceRefs, RefsFree;
    var doc :| InitialOutcome(document, source, doc) && db' == Created(db, e, f, r, key, doc, refs);
    var mid := AddEntity(db, e, Entity(f, r));
    AddVersionOnly(mid, e, key, 1, doc);
    FirstVersionStored(db, e, f, r, key, doc);
    ReferencesReplaced(db.mappings, e, refs);
    OnlyMappings(db, AddVersion(mid, e, key, 1, doc), db', e, key, doc);
  }

  lemma OnlyMappings(db: Db, mid: Db, db': Db, e: Id, key: string, doc: Object)
    requires StoresVersion(db, mid, e, key, doc) && db' == mid.(mappings := db'.mappings)
    ensures StoresVersion(db, db', e, key, doc)
  {
  }

  lemma FirstVersionStored(db: Db, e: Id, f: Id, r: Id, key: string, doc: Object)
    requires Sound(db) && e !in db.issued && Revises(db, r, f)
    ensures MaxVersion(db.versions, e) == 0 && StoresVersion(db, AddVersion(AddEntity(db, e, Entity(f, r)), e, key, 1, doc), e, key, doc)
  {
    hide CatalogSound, BindingsSound, EventsSound, HistoriesSound, MappingsSound, ConflictsSound, UpToDate, MaxVersion, Numbered;
    NoVersionsOf(db, e);
  }

  // ---------- the machine ----------

  /** What a committing transaction does, given the revision and the type key it has read. */
  ghost predicate TaskDoes(db: Db, rules: SchemaRules, task: Task, revision: Option<Id>, key: Option<string>, db': Db) {
    match task
    case Create(f, document, source, refs) =>
      revision.Some? && key.Some? && exists e :: CreateDoes(db, e, f, revision.value, document, source, refs, key.value, db')
    case Update(e, document, source, refs) => UpdateDoes(db, e, document, source, refs, key, db')
    case Resolve(e, c, path, value) => key.Some? && ResolveDoes(db, c, e, path, value, key.value, db')
    case Upgrade(e, _) => revision.Some? && UpgradeDoes(db, e, revision.value, rules, key, db')
    case Merge(from, into) => key.Some? && MergeDoes(db, from, into, key.value, db')
    case Publish(f) => PublishDoes(db, f, rules, db')
    case SaveDraft(f, schema, expected) => SaveDraftDoes(db, f, schema, expected, db')
    case DeleteFamily(f) => DeleteFamilyDoes(db, f, db')
  }

  /** However transactions are interleaved, a commit acts on the documents that are current when it
      commits, and does what its request asks for and nothing else. */
  lemma CommitDoes(s: State, rules: SchemaRules, i: nat, s': State)
    requires Inv(s) && Commits(s, rules, i, s')
    ensures TaskDoes(s.db, rules, s.txs[i].task, s.txs[i].seen.revision, s.txs[i].seen.key, s'.db)
  {
    hide Sound, Exclusive, ClaimsRespected, SeenHolds, Writes, Locks, WellFormedTask, ConflictStands, RowExists, ClaimsFit, Wants, TaskDoes;
    var tx := s.txs[i];
    assert TxSound(s.db, tx);
    assert Locks(tx.task)[..tx.held] == Locks(tx.task);
    WritesDo(s.db, rules, tx, s'.db);
  }

  lemma WritesDo(db: Db, rules: SchemaRules, tx: Tx, db': Db)
    requires Sound(db) && SeenHolds(db, tx) && WellFormedTask(tx.task) && Writes(db, rules, tx.task, tx.seen, db')
    requires forall x :: x in Locks(tx.task) ==> RowExists(db, tx.task, x)
    ensures TaskDoes(db, rules, tx.task, tx.seen.revision, tx.seen.key, db')
  {
    hide Sound, MaxVersion, MaxRevision, RefsOf, CreateWrites, UpdateWrites, ResolveWrites, UpgradeWrites, MergeWrites,
      CreateDoes, UpdateDoes, ResolveDoes, UpgradeDoes, MergeDoes;
    var seen := tx.seen;
    match tx.task
    case Create(f, document, source, refs) =>
      var e :| CreateWrites(db, e, f, seen.revision.value, document, source, refs, seen.key.value, db');
      CreateIsDone(db, e, f, seen.revision.value, document, source, refs, seen.key.value, db');
    case Update(e, document, source, refs) => UpdateIsDone(db, e, document, source, refs, seen.next, seen.key, db');
    case Resolve(e, c, path, value) => ResolveIsDone(db, c, e, path, value, seen.next.value, seen.key.value, db');
    case Upgrade(e, _) => UpgradeIsDone(db, e, seen.revision.value, rules, seen.next, seen.key, db');
    case Merge(from, into) => MergeIsDone(db, from, into, seen.next.value, seen.key.value, db');
    case Publish(f) =>
    case SaveDraft(f, schema, expected) =>
    case DeleteFamily(f) =>
  }

  // ---------- what is left alone ----------

  /** An open conflict becomes resolved only by the commit of a resolution of this conflict. */
  lemma ResolvedByItsResolution(s: State, rules: SchemaRules, s': State, c: Id)
    requires Inv(s) && Next(s, rules, s') && c in s.db.conflicts && c in s'.db.conflicts
    requires s.db.conflicts[c].status.Open? && s'.db.conflicts[c].status.Resolved?
    ensures exists i :: Commits(s, rules, i, s') && s.txs[i].task.Resolve? && s.txs[i].task.conflict == c
  {
    hide Inv, Begins, Acquires, Reads, Claims, Commits, Aborts, TaskDoes, SingleStatement;
    if i :| Commits(s, rules, i, s') {
      CommitDoes(s, rules, i, s');
      CommitHasTask(s, rules, i, s');
      InvIssued(s);
      ConflictsOf(s.db, rules, s.txs[i].task, s.txs[i].seen.revision, s.txs[i].seen.key, s'.db, c);
    } else if SingleStatement(s, s') {
      SingleKeepsConflict(s, s', c);
    } else {
      OnlyTransactionsChange(s, rules, s');
    }
  }

  lemma InvIssued(s: State)
    requires Inv(s)
    ensures IdsIssued(s.db)
  {
    hide CatalogSound, BindingsSound, VersionsSound, EventsSound, HistoriesSound, MappingsSound, ConflictsSound, UpToDate, TxSound, Exclusive, ClaimsRespected;
  }

  lemma CommitHasTask(s: State, rules: SchemaRules, i: nat, s': State)
    requires Commits(s, rules, i, s')
    ensures i in s.txs
  {
  }

  /** Of the conflicts there were, a transaction changes at most the one that it resolves. */
  lemma ConflictsOf(db: Db, rules: SchemaRules, task: Task, revision: Option<Id>, key: Option<string>, db': Db, c: Id)
    requires TaskDoes(db, rules, task, revision, key, db') && c in db.conflicts && c in db'.conflicts && IdsIssued(db)
    ensures !(task.Resolve? && task.conflict == c) ==> db'.conflicts[c] == db.conflicts[c]
  {
    hide StoresVersion, HasReferences, MaxVersion, ApplyOutcome, ResolveOutcome, DuplicateOutcome, InitialOutcome;
  }

  lemma SingleKeepsConflict(s: State, s': State, c: Id)
    requires SingleStatement(s, s') && c in s.db.conflicts && c in s'.db.conflicts
    ensures s'.db.conflicts[c] == s.db.conflicts[c]
  {
    hide KeyFree;
  }

  /** A transaction of one statement deletes an entity, or adds a family with the first version of its
      draft, or gives a family another key; the key of a family is then no other family's. */
  lemma SingleDoes(s: State, s': State)
    requires SingleStatement(s, s')
    ensures
      || (exists e :: DeleteDoes(s.db, e, s'.db))
      || (exists f, family, schema :: FamilyIsAdded(s.db, f, family, schema, s'.db))
      || (exists f, family :: FamilyIsRenamed(s.db, f, family, s'.db))
  {
    hide LockedByAny, ClaimedByAny, DeleteDoes, RemoveEntity;
    if e :| e in s.db.entities && s'.db == RemoveEntity(s.db, e) {
      DeletionDoes(s.db, e);
    } else if f, family, schema :| f !in s.db.issued && KeyFree(s.db.families, f, family) && s'.db == AddFamily(s.db, f, family, schema) {
      FamilyAdded(s.db, f, family, schema);
    } else {
      var f, family :| f in s.db.families && KeyFree(s.db.families, f, family) && s'.db == RenameFamily(s.db, f, family);
      FamilyRenamed(s.db, f, family);
    }
  }

  lemma FamilyAdded(db: Db, f: Id, family: Family, schema: Object)
    requires f !in db.issued && KeyFree(db.families, f, family)
    ensures FamilyIsAdded(db, f, family, schema, AddFamily(db, f, family, schema))
  {
  }

  lemma FamilyRenamed(db: Db, f: Id, family: Family)
    requires f in db.families && KeyFree(db.families, f, family)
    ensures FamilyIsRenamed(db, f, family, RenameFamily(db, f, family))
  {
  }

  ghost predicate FamilyIsAdded(db: Db, f: Id, family: Family, schema: Object, db': Db) {
    f !in db.issued && (forall g :: g in db.families && g != f ==> db.families[g] != family) &&
    db' == db.(families := db.families[f := family], drafts := db.drafts[f := Draft(schema, 1)], issued := db.issued + {f})
  }

  ghost predicate FamilyIsRenamed(db: Db, f: Id, family: Family, db': Db) {
    f in db.families && (forall g :: g in db.families && g != f ==> db.families[g] != family) &&
    db' == db.(families := db.families[f := family])
  }

  // ---------- the profile afterwards ----------

  lemma NowCurrent(db: Db, db': Db, e: Id, doc: Object)
    requires Sound(db) && forall v :: VersionKey(e, v) in db'.versions <==> VersionKey(e, v) in db.versions || v == MaxVersion(db.versions, e) + 1
    requires db'.versions[VersionKey(e, MaxVersion(db.versions, e) + 1)] == doc
    ensures HasDocument(db', e) && Document(db', e) == doc && MaxVersion(db'.versions, e) == MaxVersion(db.versions, e) + 1
  {
    hide CatalogSound, BindingsSound, EventsSound, HistoriesSound, MappingsSound, ConflictsSound, UpToDate, MaxVersion;
    var n := MaxVersion(db.versions, e);
    assert Numbered(db.versions, e);
    NumberedFromZero(db.versions, e);
    assert forall k: VersionKey :: k.entity == e ==> k == VersionKey(e, k.version);
    MaxVersionIs(db'.versions, e, n + 1);
  }

  lemma StoredIsCurrent(db: Db, db': Db, e: Id, key: string, doc: Object)
    requires Sound(db) && StoresVersion(db, db', e, key, doc)
    ensures HasDocument(db', e) && Document(db', e) == doc && MaxVersion(db'.versions, e) == MaxVersion(db.versions, e) + 1
  {
    hide Sound, MaxVersion;
    NowCurrent(db, db', e, doc);
  }

  /** After a merge the profile of `into` is the left-biased maximum of the two there were. */
  lemma ProfileAfterMerge(db: Db, from: Id, into: Id, key: string, db': Db)
    requires Sound(db) && from != into && MergeDoes(db, from, into, key, db')
    requires RegularPair(Document(db, into), Document(db, from))
    ensures HasDocument(db', into) && StoredWellFormed(Document(db', into))
    ensures View(Document(db', into)) == MergeView(View(Document(db, into)), View(Document(db, from)))
  {
    hide Sound, MaxVersion, DuplicateOutcome, RegularPair, View;
    var doc :| DuplicateOutcome(Document(db, into), Document(db, from), doc) && MergeLeaves(db, from, into, key, doc, db');
    NowCurrent(db, db', into, doc);
    DuplicateMergeIsMaximum(Document(db, into), Document(db, from), doc);
  }

  /** After a resolution the profile has the value at the path, decided by hand, and is otherwise as it
      was. */
  lemma ProfileAfterResolve(db: Db, c: Id, e: Id, path: string, value: Json, key: string, db': Db)
    requires Sound(db) && ResolveDoes(db, c, e, path, value, key, db') && RegularResolution(Document(db, e), path, value)
    ensures HasDocument(db', e) && StoredWellFormed(Document(db', e))
    ensures View(Document(db', e)) == View(Document(db, e))[path := Entry(value, "manual")]
  {
    hide Sound, MaxVersion, ResolveOutcomeVia, RegularResolution, View, StoresVersion, WellFormed;
    var doc :| ResolveOutcome(Document(db, e), path, value, doc) && StoresVersion(db, db', e, key, doc);
    StoredIsCurrent(db, db', e, key, doc);
    var flat, data :| ResolveOutcomeVia(Document(db, e), path, value, doc, flat, data);
    var back := FlattenedExists(data);
    RegularIsStored(Document(db, e), path, value);
    ResolutionWritesThePath(Document(db, e), path, value, doc, flat, data, back);
  }

  lemma RegularIsStored(doc: Object, path: string, value: Json)
    requires RegularResolution(doc, path, value)
    ensures StoredWellFormed(doc)
  {
  }

  /** After an update the profile is the one there was, updated by what the incoming document
      contributes. */
  lemma ProfileAfterUpdate(db: Db, e: Id, document: Object, source: string, refs: seq<Ref>, key: Option<string>, db': Db)
    requires Sound(db) && UpdateDoes(db, e, document, source, refs, key, db')
    requires forall inc :: IsFlattened(SplitMeta(document).0, inc) ==> RegularUpdate(Document(db, e), inc)
    ensures HasDocument(db', e) && StoredWellFormed(Document(db', e)) && StoredWellFormed(Document(db, e))
    ensures exists inc ::
      IsFlattened(SplitMeta(document).0, inc) && View(Document(db', e)) == UpdateView(View(Document(db, e)), inc, WriteSource(source))
  {
    hide Sound, MaxVersion, ApplyOutcomeVia, RegularUpdate, View, StoresVersion, RecordsConflicts, HasReferences, UpdateView, WriteSource, IsFlattened, WellFormed, RefsOf;
    var current := Document(db, e);
    var merged, candidates, changed, ids :|
      ApplyOutcome(current, document, source, merged, candidates, changed) &&
      UpdateLeaves(db, e, merged, candidates, changed, ids, refs, key, db');
    var cur, inc, data, order :| ApplyOutcomeVia(current, document, source, merged, candidates, changed, cur, inc, data, order);
    OutcomeFlattens(current, document, source, merged, candidates, changed, cur, inc, data, order);
    assert OutcomeFrom(current, document, source, merged, candidates, changed, inc);
    UpdatedDocument(current, document, source, merged, candidates, changed, cur, inc, data, order);
    if changed || multiset(RefsOf(db.mappings, e)) != multiset(refs) {
      StoredIsCurrent(db, db', e, key.value, if changed then merged else current);
    }
  }

  lemma OutcomeFlattens(current: Object, document: Object, source: string, merged: Object, candidates: seq<ConflictCandidate>, changed: bool,
                        cur: Object, inc: Object, data: Object, order: seq<string>)
    requires ApplyOutcomeVia(current, document, source, merged, candidates, changed, cur, inc, data, order)
    ensures IsFlattened(SplitMeta(document).0, inc) && IsFlattened(SplitMeta(current).0, cur)
  {
    hide IsFlattened, IsUnflattened, ListsConflicts, Decide, SetAuthorityPaths, AuthorityOf;
  }

  /** The document that an update stores, the merged one or the present one, is the update of the
      present one. */
  lemma UpdatedDocument(current: Object, document: Object, source: string, merged: Object, candidates: seq<ConflictCandidate>, changed: bool,
                        cur: Object, inc: Object, data: Object, order: seq<string>)
    requires ApplyOutcomeVia(current, document, source, merged, candidates, changed, cur, inc, data, order) && RegularUpdate(current, inc)
    ensures
      var doc := if changed then merged else current;
      StoredWellFormed(current) && StoredWellFormed(doc) && View(doc) == UpdateView(View(current), inc, WriteSource(source))
  {
    hide WellFormed, WellFormedFlat, NoClash, IsFlattened, IsUnflattened, ListsConflicts, Decide, SetAuthorityPaths, Authority.MergeFieldAuthority, EffectiveSource;
    assert OutcomeFrom(current, document, source, merged, candidates, changed, inc);
    UpdateIsPointwise(current, document, source, merged, candidates, changed, inc);
    if !changed {
      CurrentFlat(current, cur);
      var auth, from := AuthorityOf(SplitMeta(current).1), WriteSource(source);
      DecisionsAgree(cur, auth, inc, from);
      NothingWon(View(current), inc, from, Written(inc, Decide(cur, auth, inc, from)));
    }
  }

  lemma NothingWon(v: Profile, inc: Object, source: string, written: Object)
    requires EntriesOf(written, AllFrom(written, source)) == Won(v, inc, source) && written.Keys == {}
    ensures UpdateView(v, inc, source) == v
  {
    hide Authority.MergeFieldAuthority;
    assert Won(v, inc, source).Keys == {};
  }

  /** A new profile has the incoming document's paths, each with the source of the creation. */
  lemma ProfileAfterCreate(db: Db, e: Id, f: Id, r: Id, document: Object, source: string, refs: seq<Ref>, key: string, db': Db)
    requires Sound(db) && CreateDoes(db, e, f, r, document, source, refs, key, db')
    requires forall flat :: IsFlattened(SplitMeta(document).0, flat) ==> WellFormedFlat(flat)
    ensures HasDocument(db', e) && StoredWellFormed(Document(db', e))
    ensures exists flat :: IsFlattened(SplitMeta(document).0, flat) && View(Document(db', e)) == UpdateView(map[], flat, WriteSource(source))
  {
    hide Sound, MaxVersion, View, StoresVersion, HasReferences, UpdateView, WriteSource, IsFlattened, IsUnflattened, WellFormed, WellFormedFlat;
    var doc :| InitialOutcome(document, source, doc) && StoresVersion(db, db', e, key, doc);
    var flat, data :| InitialOutcomeVia(document, source, doc, flat, data);
    StoredIsCurrent(db, db', e, key, doc);
    CreateIsAnUpdate(document, source, doc, flat, data);
  }

  // ---------- what the earlier statements check and read ----------

  /** The revision is the family's with the highest number. */
  predicate IsLatestOf(db: Db, family: Id, r: Id) {
    r in db.revisions && db.revisions[r].family == family &&
    forall q :: q in db.revisions && db.revisions[q].family == family ==> db.revisions[q].no <= db.revisions[r].no
  }

  lemma LatestIsChosen(db: Db, family: Id, r: Id)
    ensures Chosen(db, family, Latest, r) <==> IsLatestOf(db, family, r)
  {
    var numbers := RevisionNumbers(db.revisions, family);
    if Chosen(db, family, Latest, r) {
      assert db.revisions[r].no in numbers;
      forall q | q in db.revisions && db.revisions[q].family == family ensures db.revisions[q].no <= db.revisions[r].no {
        assert db.revisions[q].no in numbers;
      }
    }
    if IsLatestOf(db, family, r) {
      assert db.revisions[r].no in numbers && IsMax(numbers, db.revisions[r].no);
    }
  }

  /** The revision that a choice means: the one with the id or the number, or the latest. */
  predicate IsMeant(db: Db, family: Id, choice: Choice, r: Id) {
    r in db.revisions && db.revisions[r].family == family &&
    match choice
    case ById(id) => r == id
    case ByNumber(no) => db.revisions[r].no == no
    case Latest => IsLatestOf(db, family, r)
  }

  lemma MeantIsChosen(db: Db, family: Id, choice: Choice, r: Id)
    ensures Chosen(db, family, choice, r) <==> IsMeant(db, family, choice, r)
  {
    hide IsLatestOf;
    LatestIsChosen(db, family, r);
  }

  ghost predicate IsCurrentDocument(db: Db, e: Id, doc: Object) {
    e in db.entities && VersionKey(e, MaxVersion(db.versions, e)) in db.versions && db.versions[VersionKey(e, MaxVersion(db.versions, e))] == doc
  }

  /** A query finds what stands in the tables at that moment: the latest version of a locked entity,
      the revision that is meant, the key of the entity's or the new profile's family. */
  lemma ReadsWhatIsThere(s: State, i: nat, s': State)
    requires Inv(s) && Reads(s, i, s')
    ensures i in s.txs && i in s'.txs
    ensures
      var (db, task, was, now) := (s.db, s.txs[i].task, s.txs[i].seen, s'.txs[i].seen);
      (forall e :: e in now.documents && !(e in was.documents && was.documents[e] == now.documents[e]) ==> IsCurrentDocument(db, e, now.documents[e])) &&
      (now.revision != was.revision ==>
        now.revision.Some? &&
        if task.Create? then IsLatestOf(db, task.family, now.revision.value)
        else task.Upgrade? && task.entity in db.entities && IsMeant(db, db.entities[task.entity].family, task.choice, now.revision.value)) &&
      (now.key != was.key ==> now.key.Some? && IsKeyOf(db, task, now.key.value))
  {
    hide Sound, Exclusive, ClaimsRespected, ConflictStands, SeenHolds, MaxVersion, Chosen, IsMeant, IsLatestOf, NextNumber, ClaimsFit, RefsOf;
    var tx := s.txs[i];
    assert TxSound(s.db, tx);
    assert Locks(tx.task)[..tx.held] == Locks(tx.task);
    var seen' :| Looks(s.db, tx.task, tx.claims, tx.seen, seen') && s' == s.(txs := s.txs[i := tx.(seen := seen')]);
    forall f, choice, r ensures Chosen(s.db, f, choice, r) <==> IsMeant(s.db, f, choice, r) { MeantIsChosen(s.db, f, choice, r); }
    forall f, r ensures Chosen(s.db, f, Latest, r) <==> IsLatestOf(s.db, f, r) { LatestIsChosen(s.db, f, r); }
  }

  /** The key is that of the family of the new profile or of the entity that gets a version. */
  predicate IsKeyOf(db: Db, task: Task, key: string) {
    var families := db.families;
    match task
    case Create(f, _, _, _) => f in families && key == families[f].namespace + "/" + families[f].code
    case Update(e, _, _, _) => IsFamilyKey(db, e, key)
    case Resolve(e, _, _, _) => IsFamilyKey(db, e, key)
    case Upgrade(e, _) => IsFamilyKey(db, e, key)
    case Merge(_, into) => IsFamilyKey(db, into, key)
    case _ => false
  }

  predicate IsFamilyKey(db: Db, e: Id, key: string) {
    e in db.entities && db.entities[e].family in db.families &&
    key == db.families[db.entities[e].family].namespace + "/" + db.families[db.entities[e].family].code
  }

  /** What a transaction has checked when it begins: a creation, that the latest schema accepts its
      document; a resolution, that its conflict is open and concerns the path; a merge, that its
      entities are two; a deletion, that the family has neither entities nor revisions. */
  lemma BeginsAfterChecks(s: State, rules: SchemaRules, i: nat, task: Task, s': State)
    requires Begins(s, rules, i, task, s')
    ensures
      var db := s.db;
      match task
      case Create(f, document, _, refs) =>
        ValidRefs(refs) && exists r :: IsLatestOf(db, f, r) && rules.accepts(db.revisions[r].schema, document)
      case Update(_, _, _, refs) => ValidRefs(refs)
      case Resolve(e, c, path, _) =>
        c in db.conflicts && db.conflicts[c].status == Open && db.conflicts[c].entity == e &&
        path == db.conflicts[c].candidate.ns + "/" + db.conflicts[c].candidate.fieldKey
      case Merge(from, into) => from != into
      case DeleteFamily(f) =>
        (forall e :: e in db.entities ==> db.entities[e].family != f) && forall r :: r in db.revisions ==> db.revisions[r].family != f
      case _ => true
  {
    hide ValidRefs, IsLatestOf;
    if task.Create? {
      var r :| Chosen(s.db, task.family, Latest, r) && rules.accepts(s.db.revisions[r].schema, task.document);
      LatestIsChosen(s.db, task.family, r);
    }
    if task.DeleteFamily? { NoRevisionsOf(s.db, task.family); }
  }

  lemma NoRevisionsOf(db: Db, f: Id)
    requires RevisionNumbers(db.revisions, f) == {}
    ensures forall r :: r in db.revisions ==> db.revisions[r].family != f
  {
    forall r | r in db.revisions && db.revisions[r].family == f ensures db.revisions[r].no in RevisionNumbers(db.revisions, f) {}
  }
}
