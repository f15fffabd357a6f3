/** What every run of interleaved transactions guarantees. */
module Runs {
  import opened Basics
  import opened Tables
  import opened Statements
  import opened CatalogStatements
  import opened Requests
  import opened Transactions

  lemma {:induction false} RunInv(run: seq<State>, rules: SchemaRules, k: nat)
    requires IsRun(run, rules) && k < |run|
    ensures Inv(run[k])
  {
    hide Sound, Next, TxSound;
    if k == 0 {
      EmptyIsSound();
    } else {
      RunInv(run, rules, k - 1);
      StepInv(run[k - 1], rules, run[k]);
    }
  }

  lemma {:induction false} RunEvolves(run: seq<State>, rules: SchemaRules, i: nat, j: nat)
    requires IsRun(run, rules) && i <= j < |run|
    ensures Evolves(run[i].db, run[j].db)
    decreases j
  {
    hide Consistent, UpToDate, Next, TxSound, Evolves;
    if i == j {
      NothingChanges(run[i].db);
      ChangesEvolve(run[i].db, run[i].db, {});
    } else {
      RunEvolves(run, rules, i, j - 1);
      RunInv(run, rules, i);
      RunInv(run, rules, j - 1);
      RunInv(run, rules, j);
      StepInv(run[j - 1], rules, run[j]);
      EvolvesTransitive(run[i].db, run[j - 1].db, run[j].db);
    }
  }

  lemma ChangesEvolve(db: Db, db': Db, touched: set<Id>)
    requires Changes(db, db', touched)
    ensures Evolves(db, db')
  {
  }

  /** Under every interleaving the versions of an entity are exactly 1 .. n, with one event for
      each and no other, and the event of the latest names the revision the entity is bound to. */
  lemma VersionsAreNumbered(run: seq<State>, rules: SchemaRules, k: nat, e: Id)
    requires IsRun(run, rules) && k < |run| && e in run[k].db.entities
    ensures
      var db := run[k].db;
      var n := MaxVersion(db.versions, e);
      n >= 1 &&
      (forall v :: VersionKey(e, v) in db.versions <==> 1 <= v <= n) &&
      (forall v :: VersionKey(e, v) in db.outbox <==> 1 <= v <= n) &&
      db.outbox[VersionKey(e, n)].revision == db.entities[e].revision
  {
    hide CatalogSound, BindingsSound, EventsSound, HistoriesSound, MappingsSound, ConflictsSound, TxSound, Exclusive, MaxVersion;
    RunInv(run, rules, k);
    var db := run[k].db;
    assert Numbered(db.versions, e);
    assert UpToDate(db, e);
    NumberedFromZero(db.versions, e);
  }

  /** No stored version or event ever changes, none is lost while its entity lives, and none comes
      back with other contents after its entity was deleted. */
  lemma VersionsNeverChange(run: seq<State>, rules: SchemaRules, i: nat, j: nat, k: VersionKey)
    requires IsRun(run, rules) && i <= j < |run| && k in run[i].db.versions
    ensures k in run[i].db.outbox
    ensures k in run[j].db.versions <==> k.entity in run[j].db.entities
    ensures k in run[j].db.versions ==>
      run[j].db.versions[k] == run[i].db.versions[k] && k in run[j].db.outbox && run[j].db.outbox[k] == run[i].db.outbox[k]
  {
    hide CatalogSound, BindingsSound, EventsSound, HistoriesSound, MappingsSound, ConflictsSound, TxSound, Exclusive, MaxVersion, Numbered, UpToDate, RevisionsEvolve, ConflictsEvolve;
    RunInv(run, rules, i);
    RunInv(run, rules, j);
    RunEvolves(run, rules, i, j);
  }

  /** The event of a version carries for ever the revision, and its number, that the entity was
      bound to when the version was the latest. */
  lemma EventsKeepTheBinding(run: seq<State>, rules: SchemaRules, i: nat, j: nat, e: Id)
    requires IsRun(run, rules) && i <= j < |run| && e in run[i].db.entities && e in run[j].db.entities
    ensures
      var (was, now) := (run[i].db, run[j].db);
      var k := VersionKey(e, MaxVersion(was.versions, e));
      k in now.outbox && now.outbox[k].revision == was.entities[e].revision &&
      now.outbox[k].revision in now.revisions &&
      now.outbox[k].revisionNo == now.revisions[now.outbox[k].revision].no &&
      now.revisions[now.outbox[k].revision].family == now.entities[e].family
  {
    hide CatalogSound, BindingsSound, VersionsSound, HistoriesSound, MappingsSound, ConflictsSound, TxSound, Exclusive, MaxVersion;
    var (was, now) := (run[i].db, run[j].db);
    var k := VersionKey(e, MaxVersion(was.versions, e));
    RunInv(run, rules, i);
    RunInv(run, rules, j);
    assert UpToDate(was, e);
    VersionsNeverChange(run, rules, i, j, k);
  }

  ghost predicate HasRevision(db: Db, f: Id, no: int) {
    exists r :: r in db.revisions && db.revisions[r].family == f && db.revisions[r].no == no
  }

  /** In every state each family's revisions are exactly 1 .. n, one for each number, and every
      entity is bound to one of its own family's. */
  lemma RevisionsAreNumbered(run: seq<State>, rules: SchemaRules, k: nat, f: Id)
    requires IsRun(run, rules) && k < |run| && f in run[k].db.families
    ensures
      var db := run[k].db;
      var n := MaxRevision(db.revisions, f);
      n >= 0 &&
      (forall no :: HasRevision(db, f, no) <==> 1 <= no <= n) &&
      (forall r, q :: r in db.revisions && q in db.revisions && r != q ==>
         !(db.revisions[r].family == db.revisions[q].family && db.revisions[r].no == db.revisions[q].no)) &&
      (forall e :: e in db.entities && db.entities[e].family == f ==> Revises(db, db.entities[e].revision, f))
  {
    hide VersionsSound, EventsSound, HistoriesSound, MappingsSound, ConflictsSound, TxSound, Exclusive, UpToDate, MaxRevision;
    RunInv(run, rules, k);
    var db := run[k].db;
    assert RevisionsNumbered(db.revisions, f);
    NumbersStart(db.revisions, f);
    forall no ensures HasRevision(db, f, no) <==> no in RevisionNumbers(db.revisions, f) {}
  }

  lemma NumbersStart(revisions: map<Id, Revision>, f: Id)
    requires RevisionsNumbered(revisions, f)
    ensures MaxRevision(revisions, f) >= 0
  {
  }

  /** A published revision never changes, and stays as long as its family. */
  lemma RevisionsNeverChange(run: seq<State>, rules: SchemaRules, i: nat, j: nat, r: Id)
    requires IsRun(run, rules) && i <= j < |run| && r in run[i].db.revisions
    ensures r in run[j].db.revisions <==> run[i].db.revisions[r].family in run[j].db.families
    ensures r in run[j].db.revisions ==> run[j].db.revisions[r] == run[i].db.revisions[r]
  {
    hide BindingsSound, VersionsSound, EventsSound, HistoriesSound, MappingsSound, ConflictsSound, TxSound, Exclusive, UpToDate, VersionsEvolve, ConflictsEvolve, RevisionsNumbered;
    RunInv(run, rules, j);
    RunEvolves(run, rules, i, j);
  }

  /** A reference leads to at most one entity, and that entity exists. */
  lemma ReferencesLeadToOneEntity(run: seq<State>, rules: SchemaRules, k: nat, d: Id, e: Id)
    requires IsRun(run, rules) && k < |run|
    ensures d != e ==> SharedRefs(run[k].db.mappings, d, e) == {}
    ensures RefsOf(run[k].db.mappings, e) != {} ==> e in run[k].db.entities
  {
    hide CatalogSound, BindingsSound, VersionsSound, EventsSound, HistoriesSound, ConflictsSound, TxSound, Exclusive, UpToDate;
    RunInv(run, rules, k);
    var mappings := run[k].db.mappings;
    if d != e {
      MovingKeepsReferences(run[k].db.entities, mappings, d, e);
    }
  }

  // ---------- the guards ----------

  /** When a transaction that holds its locks has read the next number, the row for that number is
      still free: neither the primary key nor ON CONFLICT DO NOTHING ever takes effect. */
  lemma NextNumberIsFree(s: State, i: nat)
    requires Inv(s) && i in s.txs && s.txs[i].seen.next.Some?
    ensures
      var (task, no) := (s.txs[i].task, s.txs[i].seen.next.value);
      if OnCatalog(task) then NumberFree(s.db.revisions, Subject(task), no)
      else VersionKey(Subject(task), no) !in s.db.versions && VersionKey(Subject(task), no) !in s.db.outbox
  {
    hide CatalogSound, BindingsSound, EventsSound, HistoriesSound, MappingsSound, ConflictsSound, UpToDate, Exclusive, LocksHeld, ConflictStands, RefsOf;
    assert TxSound(s.db, s.txs[i]);
    var x := Subject(s.txs[i].task);
    assert Numbered(s.db.versions, x);
  }

  /** The collision query of a merge always counts nothing. */
  lemma MergeMeetsNoCollision(s: State, i: nat)
    requires Inv(s) && i in s.txs && s.txs[i].task.Merge?
    ensures SharedRefs(s.db.mappings, s.txs[i].task.from, s.txs[i].task.into) == {}
  {
    hide CatalogSound, BindingsSound, VersionsSound, EventsSound, HistoriesSound, ConflictsSound, Exclusive, UpToDate, SeenHolds;
    assert TxSound(s.db, s.txs[i]);
    MovingKeepsReferences(s.db.entities, s.db.mappings, s.txs[i].task.from, s.txs[i].task.into);
  }
}
