/** An interleaved transaction compared with one that runs alone, and how transactions wait. */
module SerialOrder {
  import opened Basics
  import opened JsonValues
  import opened AuthorityMerge
  import opened DuplicateMerge
  import opened History
  import opened ExternalRefs
  import opened Tables
  import opened Statements
  import opened CatalogStatements
  import opened Requests
  import opened Transactions

  // ---------- a transaction that runs alone ----------

  /** What the queries of a transaction find when they all run in the state `db`. */
  function SeenNow(db: Db, task: Task, revision: Option<Id>): Seen {
    Seen(if OnCatalog(task) then map[] else map e | e in Locks(task) && HasDocument(db, e) :: Document(db, e),
         if task.Update? then Some(RefsOf(db.mappings, task.entity)) else None,
         if task.Create? || task.DeleteFamily? then None else Some(NextNumber(db, task)),
         revision,
         if (task.Publish? || task.SaveDraft?) && task.family in db.drafts then Some(db.drafts[task.family]) else None,
         if HasKey(db, task) then Some(KeyNow(db, task)) else None)
  }

  /** `revision` is what the transaction's query for a revision may find in the state `db`. */
  ghost predicate FindsRevision(db: Db, task: Task, revision: Option<Id>) {
    match task
    case Create(f, _, _, _) => revision.Some? && Chosen(db, f, Latest, revision.value)
    case Upgrade(e, choice) => revision.Some? && e in db.entities && Chosen(db, db.entities[e].family, choice, revision.value)
    case _ => revision.None?
  }

  /** All statements of the transaction, one after another, with nobody else in between. */
  ghost predicate RunsAlone(db: Db, rules: SchemaRules, task: Task, db': Db) {
    MayBegin(db, rules, task) && (forall x :: x in Locks(task) ==> RowExists(db, task, x)) &&
    exists revision :: FindsRevision(db, task, revision) && Writes(db, rules, task, SeenNow(db, task, revision), db')
  }

  /** The transaction has written an event. */
  ghost predicate AddsEvent(db: Db, db': Db) {
    exists k :: k in db'.outbox && k !in db.outbox
  }

  /** The family still has the type key that was read for the event. */
  predicate KeyStands(db: Db, task: Task, seen: Seen) {
    seen.key.Some? ==> HasKey(db, task) && seen.key.value == KeyNow(db, task)
  }

  /** An interleaved transaction commits what it would have written, had all its statements run
      at that moment, exactly when what it read without a lock is still so: the conflict is still
      open, the latest schema accepts the new document, the family still has no revision, the
      revision to bind to is still the one asked for, and the family still has the key that the
      event carries, if there is an event. */
  lemma CommitIsSerial(s: State, rules: SchemaRules, i: nat, s': State)
    requires Inv(s) && Commits(s, rules, i, s')
    ensures
      var (task, seen) := (s.txs[i].task, s.txs[i].seen);
      RunsAlone(s.db, rules, task, s'.db) <==>
        MayBegin(s.db, rules, task) && FindsRevision(s.db, task, seen.revision) &&
        (AddsEvent(s.db, s'.db) ==> KeyStands(s.db, task, seen))
  {
    hide Sound, Exclusive, ClaimsRespected, SeenHolds, Writes, MayBegin, FindsRevision, Locks, WellFormedTask, ConflictStands, RowExists, SeenNow, ClaimsFit, Wants, KeyStands, AddsEvent;
    var tx := s.txs[i];
    var (task, seen) := (tx.task, tx.seen);
    assert TxSound(s.db, tx);
    assert Locks(task)[..tx.held] == Locks(task);
    assert forall x :: x in Locks(task) ==> RowExists(s.db, task, x);
    if AddsEvent(s.db, s'.db) ==> KeyStands(s.db, task, seen) { SeenIsNow(s.db, rules, tx, s'.db); }
    if RunsAlone(s.db, rules, task, s'.db) {
      var revision :| FindsRevision(s.db, task, revision) && Writes(s.db, rules, task, SeenNow(s.db, task, revision), s'.db);
      RevisionIsWritten(s.db, rules, tx, revision, s'.db);
      if AddsEvent(s.db, s'.db) { KeyIsWritten(s.db, rules, task, seen, revision, s'.db); }
    }
  }

  /** The event tells which key was read. */
  lemma KeyIsWritten(db: Db, rules: SchemaRules, task: Task, seen: Seen, revision: Option<Id>, db': Db)
    requires Writes(db, rules, task, seen, db') && Writes(db, rules, task, SeenNow(db, task, revision), db')
    requires AddsEvent(db, db')
    ensures KeyStands(db, task, seen)
  {
    hide Writes, RefsOf, HasDocument, Document, NextNumber, Locks, KeyNow;
    var k :| k in db'.outbox && k !in db.outbox;
    EventHasKey(db, rules, task, seen, db', k);
    EventHasKey(db, rules, task, SeenNow(db, task, revision), db', k);
  }

  lemma EventHasKey(db: Db, rules: SchemaRules, task: Task, seen: Seen, db': Db, k: VersionKey)
    requires Writes(db, rules, task, seen, db') && k in db'.outbox && k !in db.outbox
    ensures seen.key.Some? && db'.outbox[k].typeKey == seen.key.value
  {
    hide CreateWrites, UpdateWrites, ResolveWrites, UpgradeWrites, MergeWrites, NumberFree;
    match task
    case Create(f, document, source, refs) =>
      var e :| CreateWrites(db, e, f, seen.revision.value, document, source, refs, seen.key.value, db');
      CreateEvent(db, e, f, seen.revision.value, document, source, refs, seen.key.value, db', k);
    case Update(e, document, source, refs) =>
      UpdateEvent(db, e, document, source, refs, seen.documents[e], seen.refs.value, seen.next, seen.key, db', k);
    case Resolve(e, c, path, value) =>
      ResolveEvent(db, c, e, path, value, seen.documents[e], seen.next.value, seen.key.value, db', k);
    case Upgrade(e, _) =>
      UpgradeEvent(db, e, seen.revision.value, rules, seen.documents[e], seen.next, seen.key, db', k);
    case Merge(from, into) =>
      MergeEvent(db, from, into, seen.documents[from], seen.documents[into], seen.next.value, seen.key.value, db', k);
    case _ =>
  }

  lemma CreateEvent(db: Db, e: Id, f: Id, r: Id, document: Object, source: string, refs: seq<Ref>, key: string, db': Db, k: VersionKey)
    requires CreateWrites(db, e, f, r, document, source, refs, key, db') && k in db'.outbox && k !in db.outbox
    ensures db'.outbox[k].typeKey == key
  {
    hide ReplaceRefs, RefsFree;
  }

  lemma UpdateEvent(db: Db, e: Id, document: Object, source: string, refs: seq<Ref>, current: Object, have: set<Ref>,
                    next: Option<int>, key: Option<string>, db': Db, k: VersionKey)
    requires UpdateWrites(db, e, document, source, refs, current, have, next, key, db') && k in db'.outbox && k !in db.outbox
    ensures key.Some? && db'.outbox[k].typeKey == key.value
  {
    hide ReplaceRefs, RefsFree, AddConflicts, FreshIds, ApplyOutcome, RefsDiffer, AddVersion, OnlyConflictsDiffer, Bound, VersionFree;
    var doc, candidates, changed, ids :|
      ApplyOutcome(current, document, source, doc, candidates, changed) &&
      |ids| == |candidates| && FreshIds(db, ids) && Bound(db, e) &&
      UpdateStores(AddConflicts(db, e, candidates, ids), e, if changed then doc else current, changed || RefsDiffer(have, refs), refs, next, key, db');
    var db1 := AddConflicts(db, e, candidates, ids);
    ConflictsKeepEvents(db, e, candidates, ids);
    SameOutbox(db, db1);
    if changed || RefsDiffer(have, refs) {
      OneNewEvent(db1, e, key.value, next.value, if changed then doc else current, k);
    }
  }

  lemma SameOutbox(db: Db, db': Db)
    requires OnlyConflictsDiffer(db, db')
    ensures db'.outbox == db.outbox
  {
  }

  lemma OneNewEvent(db: Db, e: Id, key: string, version: int, doc: Object, k: VersionKey)
    requires Bound(db, e)
    ensures
      var db' := AddVersion(db, e, key, version, doc);
      k in db'.outbox && k !in db.outbox ==> db'.outbox[k].typeKey == key
  {
  }

  lemma {:induction false} ConflictsKeepEvents(db: Db, e: Id, candidates: seq<ConflictCandidate>, ids: seq<Id>)
    requires |ids| == |candidates|
    ensures OnlyConflictsDiffer(db, AddConflicts(db, e, candidates, ids))
    decreases |ids|
  {
    if ids != [] { ConflictsKeepEvents(db, e, candidates[..|ids| - 1], ids[..|ids| - 1]); }
  }

  lemma ResolveEvent(db: Db, c: Id, e: Id, path: string, value: Json, current: Object, next: int, key: string, db': Db, k: VersionKey)
    requires ResolveWrites(db, c, e, path, value, current, next, key, db') && k in db'.outbox && k !in db.outbox
    ensures db'.outbox[k].typeKey == key
  {
  }

  lemma UpgradeEvent(db: Db, e: Id, r: Id, rules: SchemaRules, current: Object, next: Option<int>, key: Option<string>, db': Db, k: VersionKey)
    requires UpgradeWrites(db, e, r, rules, current, next, key, db') && k in db'.outbox && k !in db.outbox
    ensures key.Some? && db'.outbox[k].typeKey == key.value
  {
  }

  lemma MergeEvent(db: Db, from: Id, into: Id, fromDoc: Object, intoDoc: Object, next: int, key: string, db': Db, k: VersionKey)
    requires MergeWrites(db, from, into, fromDoc, intoDoc, next, key, db') && k in db'.outbox && k !in db.outbox
    ensures db'.outbox[k].typeKey == key
  {
    hide MoveMappings, SharedRefs;
  }

  // ---------- what was read is read again ----------

  /** With the same revision, and the same key if it matters, reading again changes nothing. */
  lemma SeenIsNow(db: Db, rules: SchemaRules, tx: Tx, db': Db)
    requires Sound(db) && SeenHolds(db, tx) && WellFormedTask(tx.task) && Writes(db, rules, tx.task, tx.seen, db')
    requires forall x :: x in Locks(tx.task) ==> RowExists(db, tx.task, x)
    requires AddsEvent(db, db') ==> KeyStands(db, tx.task, tx.seen)
    ensures Writes(db, rules, tx.task, SeenNow(db, tx.task, tx.seen.revision), db')
  {
    hide Sound, RefsOf, HasDocument, Document, NextNumber, CreateWrites, UpdateWrites, ResolveWrites, UpgradeWrites, MergeWrites, PublishWrites, AddsEvent, KeyNow;
    var (task, seen, now) := (tx.task, tx.seen, SeenNow(db, tx.task, tx.seen.revision));
    if !OnCatalog(task) { SubjectHasKey(db, rules, tx, db'); }
    match task
    case Create(f, document, source, refs) =>
      var e :| CreateWrites(db, e, f, seen.revision.value, document, source, refs, seen.key.value, db');
      CreateAdds(db, e, f, seen.revision.value, document, source, refs, seen.key.value, db');
    case Update(e, document, source, refs) =>
      UpdateReads(db, e, document, source, refs, now.documents[e], now.refs.value, seen.next, seen.key, now.next, now.key, db');
    case Resolve(e, c, path, value) =>
      ResolveAdds(db, c, e, path, value, seen.documents[e], seen.next.value, seen.key.value, db');
    case Upgrade(e, _) =>
      UpgradeReads(db, e, now.revision.value, rules, now.documents[e], seen.next, seen.key, now.next, now.key, db');
    case Merge(from, into) =>
      MergeAdds(db, from, into, seen.documents[from], seen.documents[into], seen.next.value, seen.key.value, db');
    case _ =>
  }

  lemma SubjectHasKey(db: Db, rules: SchemaRules, tx: Tx, db': Db)
    requires Sound(db) && !OnCatalog(tx.task) && Writes(db, rules, tx.task, tx.seen, db')
    requires forall x :: x in Locks(tx.task) ==> RowExists(db, tx.task, x)
    ensures HasKey(db, tx.task)
  {
    hide CatalogSound, VersionsSound, EventsSound, HistoriesSound, MappingsSound, ConflictsSound, UpToDate, UpdateWrites, ResolveWrites, UpgradeWrites, MergeWrites, RefsFree, Created;
    if !tx.task.Create? { assert Subject(tx.task) in Locks(tx.task); }
  }

  lemma NewVersionAdds(db: Db, db1: Db, e: Id, key: string, next: int, doc: Object)
    requires Sound(db) && VersionFree(db, e, next) && Bound(db1, e) && db1.outbox == db.outbox
    ensures VersionKey(e, next) in AddVersion(db1, e, key, next, doc).outbox && VersionKey(e, next) !in db.outbox
  {
    hide CatalogSound, BindingsSound, EventsSound, HistoriesSound, MappingsSound, ConflictsSound, UpToDate, Numbered;
  }

  lemma CreateAdds(db: Db, e: Id, f: Id, r: Id, document: Object, source: string, refs: seq<Ref>, key: string, db': Db)
    requires Sound(db) && CreateWrites(db, e, f, r, document, source, refs, key, db')
    ensures AddsEvent(db, db')
  {
    hide CatalogSound, BindingsSound, EventsSound, HistoriesSound, MappingsSound, ConflictsSound, UpToDate, ReplaceRefs, RefsFree, MaxVersion;
    NoVersionsOf(db, e);
    var doc :| InitialOutcome(document, source, doc) && db' == Created(db, e, f, r, key, doc, refs);
    NewVersionAdds(db, AddEntity(db, e, Entity(f, r)), e, key, 1, doc);
    assert VersionKey(e, 1) in db'.outbox;
  }

  lemma ResolveAdds(db: Db, c: Id, e: Id, path: string, value: Json, current: Object, next: int, key: string, db': Db)
    requires Sound(db) && ResolveWrites(db, c, e, path, value, current, next, key, db')
    ensures AddsEvent(db, db')
  {
    hide Sound, AddVersion, ResolveOutcome;
    var doc :| ResolveOutcome(current, path, value, doc) && db' == WithResolution(db, c, e, next, key, doc);
    NewVersionAdds(db, db, e, key, next, doc);
    assert VersionKey(e, next) in db'.outbox;
  }

  lemma MergeAdds(db: Db, from: Id, into: Id, fromDoc: Object, intoDoc: Object, next: int, key: string, db': Db)
    requires Sound(db) && from != into && MergeWrites(db, from, into, fromDoc, intoDoc, next, key, db')
    ensures AddsEvent(db, db')
  {
    hide Sound, AddVersion, DuplicateOutcome, MoveMappings, SharedRefs;
    var doc :| DuplicateOutcome(intoDoc, fromDoc, doc) && db' == Merged(db, from, into, next, key, doc);
    NewVersionAdds(db, Moved(db, from, into), into, key, next, doc);
    assert VersionKey(into, next) in db'.outbox;
  }

  lemma UpdateReads(db: Db, e: Id, document: Object, source: string, refs: seq<Ref>, current: Object, have: set<Ref>,
                    next: Option<int>, key: Option<string>, next': Option<int>, key': Option<string>, db': Db)
    requires Sound(db) && UpdateWrites(db, e, document, source, refs, current, have, next, key, db')
    requires (next.Some? ==> next' == next) && (AddsEvent(db, db') && key.Some? ==> key' == key)
    ensures UpdateWrites(db, e, document, source, refs, current, have, next', key', db')
  {
    hide Sound, ApplyOutcome, AddVersion, AddConflicts, RefsDiffer, ReplaceRefs, RefsFree, FreshIds;
    var doc, candidates, changed, ids :|
      ApplyOutcome(current, document, source, doc, candidates, changed) &&
      |ids| == |candidates| && FreshIds(db, ids) && Bound(db, e) &&
      UpdateStores(AddConflicts(db, e, candidates, ids), e, if changed then doc else current, changed || RefsDiffer(have, refs), refs, next, key, db');
    var db1 := AddConflicts(db, e, candidates, ids);
    ConflictsKeepEvents(db, e, candidates, ids);
    if changed || RefsDiffer(have, refs) {
      NewVersionAdds(db, db1, e, key.value, next.value, if changed then doc else current);
      assert VersionKey(e, next.value) in db'.outbox;
    }
    assert UpdateStores(db1, e, if changed then doc else current, changed || RefsDiffer(have, refs), refs, next', key', db');
  }

  lemma UpgradeReads(db: Db, e: Id, r: Id, rules: SchemaRules, current: Object, next: Option<int>, key: Option<string>,
                     next': Option<int>, key': Option<string>, db': Db)
    requires Sound(db) && UpgradeWrites(db, e, r, rules, current, next, key, db')
    requires (next.Some? ==> next' == next) && (AddsEvent(db, db') && key.Some? ==> key' == key)
    ensures UpgradeWrites(db, e, r, rules, current, next', key', db')
  {
    hide Sound, AddVersion;
    if db.entities[e].revision != r {
      NewVersionAdds(db, Bind(db, e, r), e, key.value, next.value, current);
      assert VersionKey(e, next.value) in db'.outbox;
    }
  }

  // ---------- what was bound ----------

  /** The state after a creation or an upgrade tells which revision was bound. */
  lemma RevisionIsWritten(db: Db, rules: SchemaRules, tx: Tx, revision: Option<Id>, db': Db)
    requires Sound(db) && SeenHolds(db, tx) && Writes(db, rules, tx.task, tx.seen, db')
    requires FindsRevision(db, tx.task, revision) && Writes(db, rules, tx.task, SeenNow(db, tx.task, revision), db')
    ensures tx.seen.revision == revision
  {
    hide Sound, UpdateWrites, ResolveWrites, MergeWrites, PublishWrites, RefsOf, HasDocument, Document, NextNumber, CreateWrites, Chosen, MaxRevision, RemoveFamily, SetDraft, UpgradeWrites;
    var (task, seen, now) := (tx.task, tx.seen, SeenNow(db, tx.task, revision));
    if task.Create? {
      var e :| CreateWrites(db, e, task.family, seen.revision.value, task.document, task.source, task.refs, seen.key.value, db');
      var e' :| CreateWrites(db, e', task.family, revision.value, task.document, task.source, task.refs, now.key.value, db');
      CreatedRow(db, e, task.family, seen.revision.value, task.document, task.source, task.refs, seen.key.value, db');
      CreatedRow(db, e', task.family, revision.value, task.document, task.source, task.refs, now.key.value, db');
      assert e' in db'.entities && db'.entities[e] == Entity(task.family, seen.revision.value);
    } else if task.Upgrade? {
      UpgradedRow(db, task.entity, seen.revision.value, rules, seen.documents[task.entity], seen.next, seen.key, db');
      UpgradedRow(db, task.entity, revision.value, rules, now.documents[task.entity], now.next, now.key, db');
    }
  }

  lemma CreatedRow(db: Db, e: Id, f: Id, r: Id, document: Object, source: string, refs: seq<Ref>, key: string, db': Db)
    requires Sound(db) && CreateWrites(db, e, f, r, document, source, refs, key, db')
    ensures e !in db.entities && db'.entities == db.entities[e := Entity(f, r)]
  {
    hide CatalogSound, BindingsSound, VersionsSound, EventsSound, HistoriesSound, MappingsSound, ConflictsSound, UpToDate, ReplaceRefs;
  }

  lemma UpgradedRow(db: Db, e: Id, r: Id, rules: SchemaRules, current: Object, next: Option<int>, key: Option<string>, db': Db)
    requires UpgradeWrites(db, e, r, rules, current, next, key, db')
    ensures e in db'.entities && db'.entities[e].revision == r
  {
  }
}
