/** The catalog of entity types: drafts that are edited, and revisions that are published. */
module Catalog {
  import opened Text
  import opened Basics
  import opened JsonValues
  import opened Tables
  import opened CatalogStatements
  import opened Requests
  import opened SerialOrder
  import opened Effects
  import T = Transactions
  import S = Service

  datatype CatalogFailure =
    | InvalidArgument
    | FamilyNotFound
    | DuplicateFamilyKey
    | InvalidSchema
    | DraftVersionConflict
    | FamilyNotDeletable

  datatype Outcome<T> = Done(value: T) | Failed(error: CatalogFailure)

  datatype Published = Published(schema: Object, version: int)

  /** A family with its draft and, when it has been published, its latest revision. */
  datatype Record = Record(family: Id, key: Family, draft: Draft, published: Option<Published>)

  ghost predicate IsRecord(db: Db, rec: Record) {
    var f := rec.family;
    f in db.families && f in db.drafts && rec.key == db.families[f] && rec.draft == db.drafts[f] &&
    if rec.published.None? then forall r :: r in db.revisions ==> db.revisions[r].family != f
    else
      exists r :: IsLatestOf(db, f, r) && rec.published.value == Published(db.revisions[r].schema, db.revisions[r].no)
  }

  method GetRecord(db: Db, f: Id) returns (rec: Record)
    requires f in db.families && f in db.drafts
    ensures rec.family == f && IsRecord(db, rec)
  {
    var published: Option<Published> := None;
    if RevisionNumbers(db.revisions, f) == {} { NoRevisionsOf(db, f); }
    if RevisionNumbers(db.revisions, f) != {} {
      S.LatestExists(db, f);
      var r :| r in db.revisions && T.Chosen(db, f, Latest, r);
      LatestIsChosen(db, f, r);
      published := Some(Published(db.revisions[r].schema, db.revisions[r].no));
    }
    rec := Record(f, db.families[f], db.drafts[f], published);
  }

  predicate BlankKey(namespace: string, code: string) {
    TrimSpace(namespace) == "" || TrimSpace(code) == ""
  }

  class CatalogService {
    const pool: S.Pool
    const rules: SchemaRules

    constructor (pool: S.Pool, rules: SchemaRules)
      ensures this.pool == pool && this.rules == rules
    {
      this.pool, this.rules := pool, rules;
    }

    method CreateDraft(namespace: string, code: string, schema: Object) returns (r: Outcome<Record>)
      requires Sound(pool.db)
      modifies pool
      ensures Sound(pool.db)
      ensures r.Done? ==>
        var rec := r.value;
        rec == Record(rec.family, Family(TrimSpace(namespace), TrimSpace(code)), Draft(schema, 1), None) &&
        FamilyIsAdded(old(pool.db), rec.family, rec.key, schema, pool.db) && IsRecord(pool.db, rec)
      ensures r.Failed? ==>
        pool.db == old(pool.db) &&
        if TrimSpace(namespace) == "" || TrimSpace(code) == "" then r.error == InvalidArgument
        else r.error == DuplicateFamilyKey && exists f :: f in pool.db.families && pool.db.families[f] == Family(TrimSpace(namespace), TrimSpace(code))
    {
      hide Sound, TrimSpace;
      if BlankKey(namespace, code) {
        return Failed(InvalidArgument);
      }
      var key := Family(TrimSpace(namespace), TrimSpace(code));
      var f := S.DrawId(pool.db);
      NewIsNowhere(pool.db, f);
      if !KeyFree(pool.db.families, f, key) {
        return Failed(DuplicateFamilyKey);
      }
      AddFamilySound(pool.db, f, key, schema);
      FamilyAdded(pool.db, f, key, schema);
      pool.db := AddFamily(pool.db, f, key, schema);
      NoRevisionsOf(pool.db, f);
      var rec := GetRecord(pool.db, f);
      return Done(rec);
    }

    method UpdateFamilyMeta(f: Id, namespace: string, code: string) returns (r: Outcome<Record>)
      requires Sound(pool.db)
      modifies pool
      ensures Sound(pool.db)
      ensures
        var key := Family(TrimSpace(namespace), TrimSpace(code));
        var db := old(pool.db);
        if TrimSpace(namespace) == "" || TrimSpace(code) == "" then r == Failed(InvalidArgument) && pool.db == db
        else if f !in db.families then r == Failed(FamilyNotFound) && pool.db == db
        else if exists g :: g in db.families && g != f && db.families[g] == key then r == Failed(DuplicateFamilyKey) && pool.db == db
        else r.Done? && FamilyIsRenamed(db, f, key, pool.db) && r.value.family == f && r.value.key == key && IsRecord(pool.db, r.value)
    {
      hide Sound, TrimSpace;
      if BlankKey(namespace, code) {
        return Failed(InvalidArgument);
      }
      var key := Family(TrimSpace(namespace), TrimSpace(code));
      if f !in pool.db.families {
        return Failed(FamilyNotFound);
      }
      if !KeyFree(pool.db.families, f, key) {
        return Failed(DuplicateFamilyKey);
      }
      RenameFamilySound(pool.db, f, key);
      FamilyRenamed(pool.db, f, key);
      HasDraft(pool.db);
      pool.db := RenameFamily(pool.db, f, key);
      var rec := GetRecord(pool.db, f);
      return Done(rec);
    }

    /** Publishing gives the draft the next revision number. */
    method Publish(f: Id) returns (r: Outcome<Record>)
      requires Sound(pool.db)
      modifies pool
      ensures Sound(pool.db)
      ensures f !in old(pool.db).drafts <==> r == Failed(FamilyNotFound)
      ensures f in old(pool.db).drafts ==>
        (rules.publishable(old(pool.db).drafts[f].schema) <==> r.Done?) && (r.Failed? ==> r.error == InvalidSchema)
      ensures r.Failed? ==> pool.db == old(pool.db)
      ensures r.Done? ==>
        RunsAlone(old(pool.db), rules, T.Publish(f), pool.db) && PublishDoes(old(pool.db), f, rules, pool.db) &&
        r.value.family == f && IsRecord(pool.db, r.value) &&
        r.value.published == Some(Published(old(pool.db).drafts[f].schema, MaxRevision(old(pool.db).revisions, f) + 1))
    {
      hide Sound, MaxRevision, RunsAlone;
      var db := pool.db;
      if f !in db.drafts {
        return Failed(FamilyNotFound);
      }
      var schema := db.drafts[f].schema;
      if !rules.publishable(schema) {
        return Failed(InvalidSchema);
      }
      var id := S.DrawId(db);
      PublishAlone(db, rules, f, id);
      pool.db := AddRevision(db, id, Revision(f, MaxRevision(db.revisions, f) + 1, schema));
      var rec := GetRecord(pool.db, f);
      PublishedRecord(db, f, id, rec);
      return Done(rec);
    }

    /** With an expected version a draft is saved only over that version. */
    method SaveDraft(f: Id, schema: Object, expected: Option<int>) returns (r: Outcome<Record>)
      requires Sound(pool.db)
      modifies pool
      ensures Sound(pool.db)
      ensures
        var db := old(pool.db);
        if f !in db.drafts then r == Failed(FamilyNotFound) && pool.db == db
        else if expected.Some? && expected.value != db.drafts[f].version then r == Failed(DraftVersionConflict) && pool.db == db
        else
          r.Done? && RunsAlone(db, rules, T.SaveDraft(f, schema, expected), pool.db) && SaveDraftDoes(db, f, schema, expected, pool.db) &&
          r.value.family == f &&
          IsRecord(pool.db, r.value) && r.value.draft == Draft(schema, db.drafts[f].version + 1)
    {
      hide Sound, RunsAlone;
      var db := pool.db;
      if f !in db.drafts {
        return Failed(FamilyNotFound);
      }
      if expected.Some? && expected.value != db.drafts[f].version {
        return Failed(DraftVersionConflict);
      }
      SaveDraftAlone(db, rules, f, schema, expected);
      HasDraft(db);
      pool.db := SetDraft(db, f, Draft(schema, db.drafts[f].version + 1));
      var rec := GetRecord(pool.db, f);
      return Done(rec);
    }

    method DeleteFamily(f: Id) returns (r: Outcome<()>)
      requires Sound(pool.db)
      modifies pool
      ensures Sound(pool.db)
      ensures
        var db := old(pool.db);
        if (exists e :: e in db.entities && db.entities[e].family == f) || exists q :: q in db.revisions && db.revisions[q].family == f
        then r == Failed(FamilyNotDeletable) && pool.db == db
        else if f !in db.families then r == Failed(FamilyNotFound) && pool.db == db
        else r.Done? && RunsAlone(db, rules, T.DeleteFamily(f), pool.db) && DeleteFamilyDoes(db, f, pool.db) && pool.db.revisions == db.revisions
    {
      hide Sound, RunsAlone;
      var db := pool.db;
      if RevisionNumbers(db.revisions, f) == {} { NoRevisionsOf(db, f); }
      if HasEntities(db, f) || RevisionNumbers(db.revisions, f) != {} {
        return Failed(FamilyNotDeletable);
      }
      if f !in db.families {
        return Failed(FamilyNotFound);
      }
      DeleteAlone(db, rules, f);
      pool.db := RemoveFamily(db, f);
      return Done(());
    }
  }

  // ---------- why ----------

  lemma NewIsNowhere(db: Db, f: Id)
    requires Sound(db) && f !in db.issued
    ensures f !in db.families && f !in db.revisions && RevisionNumbers(db.revisions, f) == {}
  {
    hide BindingsSound, VersionsSound, EventsSound, HistoriesSound, MappingsSound, ConflictsSound, UpToDate, RevisionsNumbered, OneRevisionPerNumber;
  }

  lemma HasDraft(db: Db)
    requires Sound(db)
    ensures db.drafts.Keys == db.families.Keys
  {
    hide BindingsSound, VersionsSound, EventsSound, HistoriesSound, MappingsSound, ConflictsSound, UpToDate, RevisionsNumbered, OneRevisionPerNumber;
  }

  lemma PublishAlone(db: Db, rules: SchemaRules, f: Id, id: Id)
    requires Sound(db) && f in db.drafts && rules.publishable(db.drafts[f].schema) && id !in db.issued
    ensures
      var db' := AddRevision(db, id, Revision(f, MaxRevision(db.revisions, f) + 1, db.drafts[f].schema));
      RunsAlone(db, rules, T.Publish(f), db') && Sound(db') && f in db.families
  {
    hide Sound, MaxRevision, Changes;
    HasDraft(db);
    var db' := AddRevision(db, id, Revision(f, MaxRevision(db.revisions, f) + 1, db.drafts[f].schema));
    AddRevisionSound(db, id, f, db.drafts[f].schema);
    assert T.PublishWrites(db, f, id, db.drafts[f].schema, MaxRevision(db.revisions, f) + 1, db');
    assert FindsRevision(db, T.Publish(f), None);
    assert T.Writes(db, rules, T.Publish(f), SeenNow(db, T.Publish(f), None), db');
  }

  lemma PublishedRecord(db: Db, f: Id, id: Id, rec: Record)
    requires Sound(db) && f in db.drafts && f in db.families && id !in db.issued && rec.family == f
    requires IsRecord(AddRevision(db, id, Revision(f, MaxRevision(db.revisions, f) + 1, db.drafts[f].schema)), rec)
    ensures rec.published == Some(Published(db.drafts[f].schema, MaxRevision(db.revisions, f) + 1))
  {
    hide Sound, MaxRevision, Changes;
    var no := MaxRevision(db.revisions, f) + 1;
    var db' := AddRevision(db, id, Revision(f, no, db.drafts[f].schema));
    AddRevisionSound(db, id, f, db.drafts[f].schema);
    assert T.Chosen(db', f, Latest, id);
    S.LatestIsOne(db', f, id);
    forall q ensures IsLatestOf(db', f, q) ==> q == id { LatestIsChosen(db', f, q); }
    assert db'.revisions[id].no in RevisionNumbers(db'.revisions, f);
  }

  lemma SaveDraftAlone(db: Db, rules: SchemaRules, f: Id, schema: Object, expected: Option<int>)
    requires Sound(db) && f in db.drafts && (expected.Some? ==> expected.value == db.drafts[f].version)
    ensures
      var db' := SetDraft(db, f, Draft(schema, db.drafts[f].version + 1));
      RunsAlone(db, rules, T.SaveDraft(f, schema, expected), db') && Sound(db')
  {
    hide Sound, Changes;
    var task := T.SaveDraft(f, schema, expected);
    SetDraftSound(db, f, Draft(schema, db.drafts[f].version + 1));
    assert FindsRevision(db, task, None);
    assert T.Writes(db, rules, task, SeenNow(db, task, None), SetDraft(db, f, Draft(schema, db.drafts[f].version + 1)));
  }

  lemma DeleteAlone(db: Db, rules: SchemaRules, f: Id)
    requires Sound(db) && f in db.families && !HasEntities(db, f) && RevisionNumbers(db.revisions, f) == {}
    ensures RunsAlone(db, rules, T.DeleteFamily(f), RemoveFamily(db, f)) && Sound(RemoveFamily(db, f))
    ensures RemoveFamily(db, f).revisions == db.revisions
  {
    hide Sound, Changes;
    RemoveFamilySound(db, f);
    assert FindsRevision(db, T.DeleteFamily(f), None);
    assert T.Writes(db, rules, T.DeleteFamily(f), SeenNow(db, T.DeleteFamily(f), None), RemoveFamily(db, f));
    NoneWithout(db, f);
  }

  lemma NoneWithout(db: Db, f: Id)
    requires RevisionNumbers(db.revisions, f) == {}
    ensures RemoveFamily(db, f).revisions == db.revisions
  {
    forall r | r in db.revisions && db.revisions[r].family == f ensures db.revisions[r].no in RevisionNumbers(db.revisions, f) {}
  }
}
