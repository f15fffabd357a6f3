/** The statements that write the catalog of entity types, and what each keeps. */
module CatalogStatements {
  import opened Basics
  import opened JsonValues
  import opened Tables
  import opened Statements

  /** No family but `f` has this key. */
  predicate KeyFree(families: map<Id, Family>, f: Id, family: Family) {
    forall g :: g in families && g != f ==> families[g] != family
  }

  // ---------- families ----------

  /** A family starts with the first version of its draft. */
  function AddFamily(db: Db, f: Id, family: Family, schema: Object): Db {
    db.(families := db.families[f := family],
        drafts := db.drafts[f := Draft(schema, 1)],
        issued := db.issued + {f})
  }

  lemma AddFamilySound(db: Db, f: Id, family: Family, schema: Object)
    requires Sound(db) && f !in db.issued && KeyFree(db.families, f, family)
    ensures Sound(AddFamily(db, f, family, schema)) && Changes(db, AddFamily(db, f, family, schema), {f})
  {
    hide VersionsSound, HistoriesSound, EventsSound, MappingsSound, ConflictsSound, UpToDate, Changes, CatalogSound;
    var db' := AddFamily(db, f, family, schema);
    CatalogWithFamily(db.families, db.drafts, db.revisions, f, family, Draft(schema, 1));
    AddFamilyChanges(db, f, family, schema);
    forall x | x in db.entities ensures UpToDate(db', x) { StaysUpToDate(db, db', x); }
  }

  lemma CatalogWithFamily(families: map<Id, Family>, drafts: map<Id, Draft>, revisions: map<Id, Revision>,
                          f: Id, family: Family, draft: Draft)
    requires CatalogSound(families, drafts, revisions) && KeyFree(families, f, family)
    ensures CatalogSound(families[f := family], drafts[f := draft], revisions)
  {
    if f !in families {
      assert RevisionNumbers(revisions, f) == {};
    }
  }

  lemma AddFamilyChanges(db: Db, f: Id, family: Family, schema: Object)
    requires Consistent(db) && f !in db.issued
    ensures Changes(db, AddFamily(db, f, family, schema), {f})
  {
    hide VersionsSound, HistoriesSound, EventsSound, MappingsSound, BindingsSound, RevisionsNumbered;
  }

  function RenameFamily(db: Db, f: Id, family: Family): Db {
    db.(families := db.families[f := family])
  }

  lemma RenameFamilySound(db: Db, f: Id, family: Family)
    requires Sound(db) && f in db.families && KeyFree(db.families, f, family)
    ensures Sound(RenameFamily(db, f, family)) && Changes(db, RenameFamily(db, f, family), {})
  {
    hide VersionsSound, HistoriesSound, EventsSound, MappingsSound, ConflictsSound, UpToDate, CatalogSound, Changes;
    var db' := RenameFamily(db, f, family);
    RenamedCatalog(db, f, family);
    RenameFamilyChanges(db, f, family);
    forall x | x in db.entities ensures UpToDate(db', x) { StaysUpToDate(db, db', x); }
  }

  lemma RenamedCatalog(db: Db, f: Id, family: Family)
    requires CatalogSound(db.families, db.drafts, db.revisions) && f in db.families && KeyFree(db.families, f, family)
    ensures CatalogSound(db.families[f := family], db.drafts, db.revisions)
  {
    CatalogWithFamily(db.families, db.drafts, db.revisions, f, family, db.drafts[f]);
    assert db.drafts[f := db.drafts[f]] == db.drafts;
  }

  lemma RenameFamilyChanges(db: Db, f: Id, family: Family)
    requires f in db.families
    ensures Changes(db, RenameFamily(db, f, family), {})
  {
  }

  /** Deleting a family deletes its draft and its revisions with it. */
  function RemoveFamily(db: Db, f: Id): Db {
    db.(families := db.families - {f},
        drafts := db.drafts - {f},
        revisions := (map r | r in db.revisions && db.revisions[r].family != f :: db.revisions[r]))
  }

  predicate HasEntities(db: Db, f: Id) {
    exists e :: e in db.entities && db.entities[e].family == f
  }

  lemma RemoveFamilySound(db: Db, f: Id)
    requires Sound(db) && !HasEntities(db, f)
    ensures Sound(RemoveFamily(db, f)) && Changes(db, RemoveFamily(db, f), {f})
  {
    hide VersionsSound, HistoriesSound, EventsSound, MappingsSound, UpToDate, RevisionsNumbered, BindingsSound, CatalogSound;
    var db' := RemoveFamily(db, f);
    RevisionsWithout(db, f);
    BindingsWithout(db, f);
    RemoveFamilyChanges(db, f);
    forall x | x in db.entities ensures UpToDate(db', x) { StaysUpToDate(db, db', x); }
  }

  lemma RevisionsWithout(db: Db, f: Id)
    requires CatalogSound(db.families, db.drafts, db.revisions)
    ensures CatalogSound(RemoveFamily(db, f).families, RemoveFamily(db, f).drafts, RemoveFamily(db, f).revisions)
  {
    var db' := RemoveFamily(db, f);
    forall g | g in db'.families ensures RevisionsNumbered(db'.revisions, g) {
      assert RevisionsNumbered(db.revisions, g);
      SameRevisionNumbers(db.revisions, db'.revisions, g);
    }
  }

  lemma SameRevisionNumbers(revisions: map<Id, Revision>, revisions': map<Id, Revision>, f: Id)
    requires forall r :: (r in revisions && revisions[r].family == f) <==> (r in revisions' && revisions'[r].family == f)
    requires forall r :: r in revisions && r in revisions' ==> revisions[r] == revisions'[r]
    ensures RevisionNumbers(revisions', f) == RevisionNumbers(revisions, f)
  {
    var before, after := RevisionNumbers(revisions, f), RevisionNumbers(revisions', f);
    forall no | no in before ensures no in after {
      var r :| r in revisions && revisions[r].family == f && revisions[r].no == no;
      assert r in revisions';
    }
    forall no | no in after ensures no in before {
      var r :| r in revisions' && revisions'[r].family == f && revisions'[r].no == no;
      assert r in revisions;
    }
  }

  lemma BindingsWithout(db: Db, f: Id)
    requires Consistent(db) && !HasEntities(db, f)
    ensures
      var db' := RemoveFamily(db, f);
      BindingsSound(db'.families, db'.revisions, db'.entities) && EventsSound(db'.entities, db'.revisions, db'.outbox)
  {
    hide CatalogSound, VersionsSound, HistoriesSound, MappingsSound, ConflictsSound;
  }

  lemma RemoveFamilyChanges(db: Db, f: Id)
    ensures Changes(db, RemoveFamily(db, f), {f})
  {
  }

  // ---------- drafts and revisions ----------

  function SetDraft(db: Db, f: Id, draft: Draft): Db {
    db.(drafts := db.drafts[f := draft])
  }

  lemma SetDraftSound(db: Db, f: Id, draft: Draft)
    requires Sound(db) && f in db.drafts
    ensures Sound(SetDraft(db, f, draft)) && Changes(db, SetDraft(db, f, draft), {f})
  {
    hide BindingsSound, VersionsSound, HistoriesSound, EventsSound, MappingsSound, ConflictsSound, UpToDate, RevisionsNumbered, OneRevisionPerNumber, Changes;
    var db' := SetDraft(db, f, draft);
    SetDraftChanges(db, f, draft);
    forall x | x in db.entities ensures UpToDate(db', x) { StaysUpToDate(db, db', x); }
  }

  lemma SetDraftChanges(db: Db, f: Id, draft: Draft)
    ensures Changes(db, SetDraft(db, f, draft), {f})
  {
  }

  function AddRevision(db: Db, r: Id, revision: Revision): Db {
    db.(revisions := db.revisions[r := revision], issued := db.issued + {r})
  }

  /** The family has no revision of this number. */
  predicate NumberFree(revisions: map<Id, Revision>, f: Id, no: int) {
    no !in RevisionNumbers(revisions, f)
  }

  /** The next revision number is free, and publishing under it keeps the numbers without gaps. */
  lemma AddRevisionSound(db: Db, r: Id, f: Id, schema: Object)
    requires Sound(db) && r !in db.issued && f in db.families
    ensures
      var no := MaxRevision(db.revisions, f) + 1;
      var db' := AddRevision(db, r, Revision(f, no, schema));
      NumberFree(db.revisions, f, no) && MaxRevision(db'.revisions, f) == no && Sound(db') && Changes(db, db', {f})
  {
    hide VersionsSound, HistoriesSound, MappingsSound, UpToDate, RevisionsNumbered, CatalogSound, MaxRevision, Changes;
    var no := MaxRevision(db.revisions, f) + 1;
    var db' := AddRevision(db, r, Revision(f, no, schema));
    NumbersAfterRevision(db, r, f, schema);
    AddRevisionChanges(db, r, Revision(f, no, schema));
    forall x | x in db.entities ensures UpToDate(db', x) { StaysUpToDate(db, db', x); }
  }

  lemma AddRevisionChanges(db: Db, r: Id, revision: Revision)
    requires Consistent(db) && r !in db.issued
    ensures Changes(db, AddRevision(db, r, revision), {revision.family})
  {
    hide VersionsSound, HistoriesSound, EventsSound, MappingsSound, BindingsSound, CatalogSound;
  }

  lemma NumbersAfterRevision(db: Db, r: Id, f: Id, schema: Object)
    requires CatalogSound(db.families, db.drafts, db.revisions) && r !in db.revisions && f in db.families
    ensures
      var no := MaxRevision(db.revisions, f) + 1;
      var revisions' := db.revisions[r := Revision(f, no, schema)];
      NumberFree(db.revisions, f, no) && MaxRevision(revisions', f) == no &&
      CatalogSound(db.families, db.drafts, revisions')
  {
    var no := MaxRevision(db.revisions, f) + 1;
    var revisions' := db.revisions[r := Revision(f, no, schema)];
    assert RevisionsNumbered(db.revisions, f);
    NumbersOfPublished(db.revisions, r, f, schema);
    forall g | g in db.families ensures RevisionsNumbered(revisions', g) {
      assert RevisionsNumbered(db.revisions, g);
      if g != f { SameRevisionNumbers(db.revisions, revisions', g); }
    }
  }

  lemma NumbersOfPublished(revisions: map<Id, Revision>, r: Id, f: Id, schema: Object)
    requires RevisionsNumbered(revisions, f) && r !in revisions
    ensures
      var no := MaxRevision(revisions, f) + 1;
      var revisions' := revisions[r := Revision(f, no, schema)];
      no >= 1 && RevisionNumbers(revisions', f) == RevisionNumbers(revisions, f) + {no} &&
      MaxRevision(revisions', f) == no && NumberFree(revisions, f, no)
  {
    var no := MaxRevision(revisions, f) + 1;
    var revisions' := revisions[r := Revision(f, no, schema)];
    var before, after := RevisionNumbers(revisions, f), RevisionNumbers(revisions', f);
    assert revisions'[r].family == f && revisions'[r].no == no;
    assert no in after;
    forall x | x in before ensures x in after {
      var q :| q in revisions && revisions[q].family == f && revisions[q].no == x;
      assert q in revisions' && revisions'[q] == revisions[q];
    }
    assert after == before + {no};
  }
}
