/** The profile service: each operation is one transaction on the tables. */
module Service {
  import opened Basics
  import opened JsonValues
  import opened Maps
  import opened DocumentPaths
  import opened AuthorityMerge
  import opened DuplicateMerge
  import opened History
  import opened ExternalRefs
  import opened Tables
  import opened Statements
  import opened Requests
  import T = Transactions
  import opened SerialOrder
  import opened Effects

  datatype Failure =
    | InvalidRefs(error: RefsError)
    | NotFound
    | EntityTypeNotFound
    | EntityTypeNotPublished
    | SchemaRejected
    | AuthorityAllBlocked
    | MappingConflict
    | ConflictNotFound
    | ConflictAlreadyResolved
    | MergeInvalid
    | MergeCollision
    | InvalidUpgrade
    | InvalidChoice

  datatype Outcome<T> = Done(value: T) | Failed(error: Failure)

  datatype Snapshot = Snapshot(entity: Id, family: Id, version: int, document: Object, refs: set<Ref>)

  /** The connection pool: the committed tables. */
  class Pool {
    var db: Db

    constructor ()
      ensures db == EmptyDb() && Sound(db)
    {
      db := EmptyDb();
      new;
      EmptyIsSound();
    }
  }

  predicate IsCurrent(db: Db, s: Snapshot) {
    s.entity in db.entities && HasDocument(db, s.entity) &&
    s == Snapshot(s.entity, db.entities[s.entity].family, MaxVersion(db.versions, s.entity), Document(db, s.entity), RefsOf(db.mappings, s.entity))
  }

  // ---------- queries and statements ----------

  method DrawId(db: Db) returns (id: Id)
    ensures id !in db.issued
  {
    id := MaxOf(db.issued) + 1;
  }

  method DrawIds(db: Db, n: nat) returns (ids: seq<Id>)
    ensures |ids| == n && FreshIds(db, ids)
  {
    var first: nat := MaxOf(db.issued) + 1;
    ids := seq(n, i requires 0 <= i < n => first + i);
  }

  /** DELETE, then one INSERT for each reference; the unique key refuses one that another entity has. */
  method SyncExternalRefs(mappings: set<Mapping>, e: Id, refs: seq<Ref>) returns (ok: bool, out: set<Mapping>)
    requires ValidRefs(refs)
    ensures ok <==> RefsFree(mappings, e, refs)
    ensures ok ==> out == ReplaceRefs(mappings, e, refs)
    ensures ok <==> forall m :: m in mappings && m.entity != e ==> !IsAskedFor(m.ref, refs)
    ensures ok ==> HasReferences(mappings, out, e, refs)
  {
    hide IsAskedFor, HasReferences;
    FreeMeans(mappings, e, refs);
    ReferencesReplaced(mappings, e, refs);
    out := set m | m in mappings && m.entity != e;
    ghost var others := out;
    for i := 0 to |refs|
      invariant out == others + Own(e, refs[..i])
      invariant RefsFree(mappings, e, refs[..i])
    {
      var ref := Trimmed(refs[i]);
      FreeOneMore(mappings, e, refs, i);
      if m :| m in out && m.ref == ref {
        NotOwnedBefore(e, refs, i, m);
        assert m in others;
        FreeOfMore(mappings, e, refs, i + 1);
        return false, mappings;
      }
      out := out + {Mapping(ref, e)};
      OwnOneMore(e, refs, i);
    }
    assert refs[..|refs|] == refs;
    ok := true;
  }

  function Own(e: Id, refs: seq<Ref>): set<Mapping> {
    set r | r in TrimmedAll(refs) :: Mapping(r, e)
  }

  lemma FreeOneMore(mappings: set<Mapping>, e: Id, refs: seq<Ref>, i: nat)
    requires i < |refs| && RefsFree(mappings, e, refs[..i])
    ensures RefsFree(mappings, e, refs[..i + 1]) <==> forall m :: m in mappings && m.entity != e ==> m.ref != Trimmed(refs[i])
  {
    assert TrimmedAll(refs[..i + 1]) == TrimmedAll(refs[..i]) + [Trimmed(refs[i])];
  }

  lemma FreeOfMore(mappings: set<Mapping>, e: Id, refs: seq<Ref>, n: nat)
    requires n <= |refs| && !RefsFree(mappings, e, refs[..n])
    ensures !RefsFree(mappings, e, refs)
  {
    var m :| m in mappings && m.entity != e && m.ref in TrimmedAll(refs[..n]);
    var i :| 0 <= i < n && TrimmedAll(refs[..n])[i] == m.ref;
    assert TrimmedAll(refs)[i] == m.ref;
  }

  lemma NotOwnedBefore(e: Id, refs: seq<Ref>, i: nat, m: Mapping)
    requires ValidRefs(refs) && i < |refs| && m.ref == Trimmed(refs[i])
    ensures m !in Own(e, refs[..i])
  {
    ValidRefsAreDistinct(refs);
    forall j | 0 <= j < i ensures TrimmedAll(refs[..i])[j] != m.ref {
      assert TrimmedAll(refs)[j] != TrimmedAll(refs)[i];
    }
  }

  lemma OwnOneMore(e: Id, refs: seq<Ref>, i: nat)
    requires i < |refs|
    ensures Own(e, refs[..i + 1]) == Own(e, refs[..i]) + {Mapping(Trimmed(refs[i]), e)}
  {
    assert TrimmedAll(refs[..i + 1]) == TrimmedAll(refs[..i]) + [Trimmed(refs[i])];
  }

  /** The type key that the binding query finds for an event. */
  function KeyOf(db: Db, e: Id): string
    requires Bound(db, e)
  {
    TypeKey(db.families[db.entities[e].family])
  }

  /** The type key that the event of `e` carries: the namespace and the code of its family. */
  function EventKey(db: Db, e: Id): string
    requires Bound(db, e)
  {
    db.families[db.entities[e].family].namespace + "/" + db.families[db.entities[e].family].code
  }

  method LoadRefs(refs: set<Ref>) returns (list: seq<Ref>)
    ensures multiset(list) == multiset(refs)
  {
    list := [];
    var rest := refs;
    while rest != {}
      invariant rest <= refs && multiset(list) == multiset(refs - rest)
    {
      var r :| r in rest;
      assert refs - (rest - {r}) == (refs - rest) + {r};
      list := list + [r];
      rest := rest - {r};
    }
    assert refs - {} == refs;
  }

  method InsertConflictCandidates(db: Db, e: Id, candidates: seq<ConflictCandidate>) returns (out: Db, ids: seq<Id>)
    ensures |ids| == |candidates| && FreshIds(db, ids) && out == AddConflicts(db, e, candidates, ids)
    ensures RecordsConflicts(db, out, e, candidates, ids) && OnlyConflictsDiffer(db, out)
  {
    hide RecordsConflicts;
    var drawn := DrawIds(db, |candidates|);
    out := db;
    for i := 0 to |candidates|
      invariant out == AddConflicts(db, e, candidates[..i], drawn[..i])
    {
      assert candidates[..i + 1][..i] == candidates[..i] && drawn[..i + 1][..i] == drawn[..i];
      out := AddConflict(out, drawn[i], Conflict(e, candidates[i], Open));
    }
    assert candidates[..|candidates|] == candidates && drawn[..|candidates|] == drawn;
    ids := drawn;
    ConflictsAreRecorded(db, e, candidates, ids);
  }

  /** The latest version's row, as GetCurrent returns it. */
  function SnapshotOf(db: Db, e: Id): Snapshot
    requires e in db.entities && HasDocument(db, e)
  {
    Snapshot(e, db.entities[e].family, MaxVersion(db.versions, e), Document(db, e), RefsOf(db.mappings, e))
  }

  lemma LiveHasDocument(db: Db, e: Id)
    requires Sound(db) && e in db.entities
    ensures HasDocument(db, e) && Bound(db, e)
  {
    hide CatalogSound, VersionsSound, EventsSound, HistoriesSound, MappingsSound, ConflictsSound, MaxVersion;
    assert UpToDate(db, e);
  }

  /** A whole transaction leads from one sound state to another. */
  lemma AloneSound(db: Db, rules: SchemaRules, task: T.Task, db': Db)
    requires Sound(db) && RunsAlone(db, rules, task, db')
    ensures Sound(db') && Changes(db, db', T.Touched(task))
  {
    hide Sound, Changes, T.Writes, T.Touched, FindsRevision;
    var revision :| FindsRevision(db, task, revision) && T.Writes(db, rules, task, SeenNow(db, task, revision), db');
    var tx := T.Tx(task, |T.Locks(task)|, SeenNow(db, task, revision), {});
    SeenNowHolds(db, rules, task, revision);
    T.WritesSound(db, rules, tx, db');
  }

  /** A transaction that runs alone does what its request asks for. */
  lemma AloneDoes(db: Db, rules: SchemaRules, task: T.Task, db': Db)
    requires Sound(db) && RunsAlone(db, rules, task, db')
    ensures exists revision :: FindsRevision(db, task, revision) && TaskDoes(db, rules, task, revision, SeenNow(db, task, revision).key, db')
  {
    hide Sound, T.Writes, FindsRevision, TaskDoes, SeenNow, T.SeenHolds, T.ConflictStands, T.ClaimsFit;
    var revision :| FindsRevision(db, task, revision) && T.Writes(db, rules, task, SeenNow(db, task, revision), db');
    var tx := T.Tx(task, |T.Locks(task)|, SeenNow(db, task, revision), {});
    SeenNowHolds(db, rules, task, revision);
    SeenNowRevision(db, task, revision);
    WritesDo(db, rules, tx, db');
  }

  lemma SeenNowRevision(db: Db, task: T.Task, revision: Option<Id>)
    ensures SeenNow(db, task, revision).revision == revision
  {
  }

  lemma SeenNowHolds(db: Db, rules: SchemaRules, task: T.Task, revision: Option<Id>)
    requires Sound(db) && T.MayBegin(db, rules, task) && FindsRevision(db, task, revision)
    requires forall x :: x in T.Locks(task) ==> T.RowExists(db, task, x)
    ensures T.TxSound(db, T.Tx(task, |T.Locks(task)|, SeenNow(db, task, revision), {}))
  {
    hide Sound, T.SeenHolds, T.ConflictStands, SeenNow, T.RowExists;
    var tx := T.Tx(task, |T.Locks(task)|, SeenNow(db, task, revision), {});
    assert T.Locks(task)[..tx.held] == T.Locks(task);
    T.ConflictToResolve(db, rules, task);
    ReadNow(db, task, revision, tx.held);
    assert T.WellFormedTask(task);
  }

  lemma ReadNow(db: Db, task: T.Task, revision: Option<Id>, held: nat)
    requires Sound(db) && FindsRevision(db, task, revision)
    ensures T.SeenHolds(db, T.Tx(task, held, SeenNow(db, task, revision), {}))
  {
    hide RefsOf, HasDocument, Document, MaxVersion, MaxRevision, CatalogSound, VersionsSound, EventsSound, HistoriesSound, MappingsSound, ConflictsSound, UpToDate;
  }

  // ---------- the operations ----------

  class ProfileService {
    const pool: Pool
    const rules: SchemaRules

    constructor (pool: Pool, rules: SchemaRules)
      ensures this.pool == pool && this.rules == rules
    {
      this.pool, this.rules := pool, rules;
    }

    method CreateProfile(family: Id, document: Object, source: string, refs: seq<Ref>) returns (r: Outcome<Snapshot>)
      requires Sound(pool.db)
      modifies pool
      ensures Sound(pool.db)
      ensures r.Done? ==>
        RunsAlone(old(pool.db), rules, T.Create(family, document, source, refs), pool.db) &&
        r.value.entity !in old(pool.db).entities && IsCurrent(pool.db, r.value)
      ensures r.Done? ==>
        r.value.version == 1 && InitialOutcome(document, source, r.value.document) &&
        exists revision :: CreatesUnder(old(pool.db), rules, r.value.entity, family, revision, document, source, refs, pool.db)
      ensures r.Done? <==>
        ValidRefs(refs) && LatestAccepts(old(pool.db), rules, family, document) && forall m :: m in old(pool.db).mappings ==> !IsAskedFor(m.ref, refs)
      ensures r.Failed? ==> pool.db == old(pool.db) && CreateFails(pool.db, rules, family, document, refs, r.error)
    {
      hide Sound, InitialOutcome, TrimmedAll, MaxVersion, RefsOf, ReplaceRefs, AddVersion, RunsAlone, IsCurrent, CreateDoes, CreatesUnder, IsAskedFor, ValidRefs;
      var check := ValidateExternalRefs(refs);
      if check.RefsBad? {
        return Failed(InvalidRefs(check.error));
      }
      var tx := pool.db;
      if RevisionNumbers(tx.revisions, family) == {} {
        NothingPublished(tx, rules, family, document);
        return Failed(if family in tx.families then EntityTypeNotPublished else EntityTypeNotFound);
      }
      LatestExists(tx, family);
      var revision :| revision in tx.revisions && T.Chosen(tx, family, Latest, revision);
      LatestIsOne(tx, family, revision);
      AcceptedByLatest(tx, rules, family, revision, document);
      if !rules.accepts(tx.revisions[revision].schema, document) {
        return Failed(SchemaRejected);
      }
      AskedForIsTrimmed(refs);
      var e := DrawId(tx);
      RevisionIsOfFamily(tx, revision, family);
      tx := AddEntity(tx, e, Entity(family, revision));
      var stored := InitialDocumentWithAuthority(document, source);
      var key := KeyOf(tx, e);
      tx := AddVersion(tx, e, key, 1, stored);
      var ok, mappings := SyncExternalRefs(pool.db.mappings, e, refs);
      if !ok {
        return Failed(MappingConflict);
      }
      tx := tx.(mappings := mappings);
      NobodyHas(pool.db, e, refs);
      AddVersionOnly(AddEntity(pool.db, e, Entity(family, revision)), e, key, 1, stored);
      CreateAlone(pool.db, rules, family, document, source, refs, e, revision, stored, tx);
      pool.db := tx;
      return Done(SnapshotOf(tx, e));
    }

    /** An update whose every change is blocked, and only such a one, fails with its conflicts
        recorded. `merged`, `candidates` and `changed` are what the merge of the documents gave. */
    method UpdateProfile(e: Id, document: Object, source: string, refs: seq<Ref>)
      returns (r: Outcome<Snapshot>, ghost merged: Object, ghost candidates: seq<ConflictCandidate>, ghost changed: bool)
      requires Sound(pool.db)
      modifies pool
      ensures Sound(pool.db)
      ensures r.Done? || r.error == AuthorityAllBlocked ==>
        RunsAlone(old(pool.db), rules, T.Update(e, document, source, refs), pool.db)
      ensures r.Done? ==> IsCurrent(pool.db, r.value) && r.value.entity == e
      ensures ValidRefs(refs) && e in old(pool.db).entities ==>
        var db := old(pool.db);
        var differ := multiset(RefsOf(db.mappings, e)) != multiset(refs);
        HasDocument(db, e) && ApplyOutcome(Document(db, e), document, source, merged, candidates, changed) &&
        (r == Failed(AuthorityAllBlocked) <==> !changed && candidates != [] && !differ) &&
        (r == Failed(MappingConflict) <==> (changed || differ) && exists m :: m in db.mappings && m.entity != e && IsAskedFor(m.ref, refs))
      ensures r.Done? || r.error == AuthorityAllBlocked ==>
        var db := old(pool.db);
        Bound(db, e) && HasDocument(db, e) &&
        exists ids :: UpdateLeaves(db, e, merged, candidates, changed, ids, refs, Some(EventKey(db, e)), pool.db)
      ensures r.Done? ==> HasDocument(old(pool.db), e) && r.value.document == if changed then merged else Document(old(pool.db), e)
      ensures r.Failed? && r.error == AuthorityAllBlocked ==>
        ValidRefs(refs) && e in old(pool.db).entities &&
        OnlyConflictsDiffer(old(pool.db), pool.db) && old(pool.db).issued < pool.db.issued
      ensures r.Failed? && r.error != AuthorityAllBlocked ==> pool.db == old(pool.db) && UpdateFails(pool.db, e, refs, r.error)
    {
      hide Sound, ApplyOutcome, TrimmedAll, MaxVersion, RefsOf, ReplaceRefs, AddVersion, RunsAlone, IsCurrent, RefsFree, ValidRefs, AddConflicts, FreshIds, UpdateLeaves, IsAskedFor;
      merged, candidates, changed := map[], [], false;
      var check := ValidateExternalRefs(refs);
      if check.RefsBad? {
        r := Failed(InvalidRefs(check.error));
        return;
      }
      var tx := pool.db;
      if e !in tx.entities {
        r := Failed(NotFound);
        return;
      }
      LiveHasDocument(tx, e);
      var current := Document(tx, e);
      var stored, blocked, docChanged := ApplyAuthorityToDocuments(current, document, source);
      merged, candidates, changed := stored, blocked, docChanged;
      var have := LoadRefs(RefsOf(tx.mappings, e));
      var refsChanged := ExternalRefsChanged(have, refs);
      var ids;
      tx, ids := InsertConflictCandidates(tx, e, blocked);
      ConflictsRecorded(pool.db, e, blocked, ids);
      ghost var recorded := tx;
      FreeMeans(tx.mappings, e, refs);
      if docChanged || refsChanged {
        var next := MaxVersion(tx.versions, e) + 1;
        var key := KeyOf(tx, e);
        tx := AddVersion(tx, e, key, next, if docChanged then stored else current);
        AddVersionOnly(recorded, e, key, next, if docChanged then stored else current);
        var ok, mappings := SyncExternalRefs(pool.db.mappings, e, refs);
        if !ok {
          r := Failed(MappingConflict);
          return;
        }
        tx := tx.(mappings := mappings);
      }
      UpdateAlone(pool.db, rules, e, document, source, refs, stored, blocked, docChanged, ids, tx);
      UpdateAloneLeaves(pool.db, e, refs, stored, blocked, docChanged, ids, tx);
      assert KeyOf(pool.db, e) == EventKey(pool.db, e);
      pool.db := tx;
      if !docChanged && !refsChanged && blocked != [] {
        r := Failed(AuthorityAllBlocked);
      } else {
        r := Done(SnapshotOf(tx, e));
      }
    }

    /** The entity goes with everything that hangs on it. */
    method DeleteProfile(e: Id) returns (r: Outcome<()>)
      requires Sound(pool.db)
      modifies pool
      ensures Sound(pool.db)
      ensures r.Done? ==> DeleteDoes(old(pool.db), e, pool.db)
      ensures r.Failed? ==> r.error == NotFound && e !in pool.db.entities && pool.db == old(pool.db)
    {
      hide Sound, DeleteDoes;
      if e !in pool.db.entities {
        return Failed(NotFound);
      }
      RemoveEntitySound(pool.db, e);
      DeletionDoes(pool.db, e);
      pool.db := RemoveEntity(pool.db, e);
      return Done(());
    }

    /** A conflict is resolved at most once: afterwards the same call fails. All other conflicts stay
        as they are. */
    method ResolveFieldConflict(c: Id, value: Json) returns (r: Outcome<Snapshot>)
      requires Sound(pool.db)
      modifies pool
      ensures Sound(pool.db)
      ensures c !in old(pool.db).conflicts <==> r == Failed(ConflictNotFound)
      ensures c in old(pool.db).conflicts ==>
        (r == Failed(ConflictAlreadyResolved) <==> old(pool.db).conflicts[c].status.Resolved?) &&
        (r.Done? <==> old(pool.db).conflicts[c].status.Open?)
      ensures r.Failed? ==> pool.db == old(pool.db)
      ensures r.Done? ==>
        var conflict := old(pool.db).conflicts[c];
        RunsAlone(old(pool.db), rules, T.Resolve(conflict.entity, c, PathOf(conflict), value), pool.db) &&
        IsCurrent(pool.db, r.value) && r.value.entity == conflict.entity &&
        c in pool.db.conflicts && pool.db.conflicts[c].status.Resolved?
      ensures r.Done? ==>
        var (db, conflict) := (old(pool.db), old(pool.db).conflicts[c]);
        var path := conflict.candidate.ns + "/" + conflict.candidate.fieldKey;
        HasDocument(db, conflict.entity) && ResolveOutcome(Document(db, conflict.entity), path, value, r.value.document) &&
        Bound(db, conflict.entity) && ResolveDoes(db, c, conflict.entity, path, value, EventKey(db, conflict.entity), pool.db)
      ensures r.Done? ==>
        pool.db.conflicts.Keys == old(pool.db).conflicts.Keys &&
        forall x :: x in pool.db.conflicts && x != c ==> pool.db.conflicts[x] == old(pool.db).conflicts[x]
    {
      hide Sound, ResolveOutcome, MaxVersion, RefsOf, AddVersion, RunsAlone, IsCurrent, StoresVersion, ResolveDoes;
      var tx := pool.db;
      if c !in tx.conflicts {
        return Failed(ConflictNotFound);
      }
      var conflict := tx.conflicts[c];
      if conflict.status.Resolved? {
        return Failed(ConflictAlreadyResolved);
      }
      var e := conflict.entity;
      ConflictIsLive(tx, c);
      LiveHasDocument(tx, e);
      var stored := ResolveDocument(Document(tx, e), conflict.candidate.ns, conflict.candidate.fieldKey, value);
      var key := KeyOf(tx, e);
      tx := AddVersion(tx, e, key, MaxVersion(tx.versions, e) + 1, stored);
      AddVersionOnly(pool.db, e, key, MaxVersion(pool.db.versions, e) + 1, stored);
      tx := MarkResolved(tx, c);
      ResolveAlone(pool.db, rules, c, value, stored, tx);
      ResolveAloneDoes(pool.db, c, value, stored, tx);
      pool.db := tx;
      return Done(SnapshotOf(tx, e));
    }

    method MergeEntityProfiles(from: Id, into: Id) returns (r: Outcome<Snapshot>)
      requires Sound(pool.db)
      modifies pool
      ensures Sound(pool.db)
      ensures r.Failed? ==> pool.db == old(pool.db) && MergeFails(pool.db, from, into, r.error)
      ensures r.Done? ==>
        RunsAlone(old(pool.db), rules, T.Merge(from, into), pool.db) && IsCurrent(pool.db, r.value) && r.value.entity == into &&
        from !in pool.db.entities &&
        r.value.refs == RefsOf(old(pool.db).mappings, from) + RefsOf(old(pool.db).mappings, into)
      ensures r.Done? ==>
        var db := old(pool.db);
        HasDocument(db, from) && HasDocument(db, into) && DuplicateOutcome(Document(db, into), Document(db, from), r.value.document) &&
        Bound(db, into) && MergeDoes(db, from, into, EventKey(db, into), pool.db)
      ensures r.Done? <==>
        var entities := old(pool.db).entities;
        from != into && from in entities && into in entities && entities[from].family == entities[into].family
    {
      hide Sound, DuplicateOutcome, MaxVersion, RefsOf, AddVersion, RunsAlone, IsCurrent, RemoveEntity, MoveMappings, SharedRefs, MergeDoes;
      if from == into {
        return Failed(MergeInvalid);
      }
      var tx := pool.db;
      if from !in tx.entities || into !in tx.entities {
        return Failed(NotFound);
      }
      if tx.entities[from].family != tx.entities[into].family {
        return Failed(MergeInvalid);
      }
      LiveHasDocument(tx, from);
      LiveHasDocument(tx, into);
      var fromDoc, intoDoc := Document(tx, from), Document(tx, into);
      NoCollision(tx, from, into);
      if SharedRefs(tx.mappings, from, into) != {} {
        return Failed(MergeCollision);
      }
      tx := Moved(tx, from, into);
      var merged := MergeDocumentsForDuplicate(intoDoc, fromDoc);
      var key := KeyOf(tx, into);
      tx := AddVersion(tx, into, key, MaxVersion(tx.versions, into) + 1, merged);
      tx := RemoveEntity(tx, from);
      MergeAlone(pool.db, rules, from, into, merged, tx);
      pool.db := tx;
      return Done(SnapshotOf(tx, into));
    }

    method UpgradeEntityBinding(e: Id, target: Target) returns (r: Outcome<Snapshot>)
      requires Sound(pool.db)
      modifies pool
      ensures Sound(pool.db)
      ensures UpgradeResult(old(pool.db), rules, e, target, r, pool.db)
      ensures r.Done? ==>
        var db := old(pool.db);
        HasDocument(db, e) && r.value.document == Document(db, e) && Bound(db, e) &&
        exists revision :: IsTarget(db, db.entities[e].family, target, revision) &&
          UpgradeDoes(db, e, revision, rules, Some(EventKey(db, e)), pool.db)
    {
      hide Sound, MaxVersion, RefsOf, RunsAlone, IsCurrent, T.Chosen, UpgradeDoes, IsTarget;
      var tx := pool.db;
      ghost var before := tx;
      if e !in tx.entities {
        return Failed(NotFound);
      }
      LiveHasDocument(tx, e);
      var resolved := ResolveTargetRevision(tx, tx.entities[e].family, target);
      if resolved.Failed? {
        return Failed(resolved.error);
      }
      var revision := resolved.value;
      ChosenIsRevision(tx, tx.entities[e].family, ChoiceOf(target).value, revision);
      if revision != tx.entities[e].revision {
        var current := Document(tx, e);
        if !rules.accepts(tx.revisions[revision].schema, current) {
          assert UpgradeRejected(tx, rules, e, ChoiceOf(target).value, revision);
          return Failed(SchemaRejected);
        }
        BindSound(tx, e, revision);
        var key := KeyOf(Bind(tx, e, revision), e);
        tx := AddVersion(Bind(tx, e, revision), e, key, MaxVersion(tx.versions, e) + 1, current);
      }
      UpgradeAlone(before, rules, e, ChoiceOf(target).value, revision, tx);
      UpgradeAloneDoes(before, rules, e, ChoiceOf(target).value, revision, tx);
      TargetIsChosen(before, before.entities[e].family, target, revision);
      pool.db := tx;
      return Done(SnapshotOf(tx, e));
    }
  }

  // ---------- creating ----------

  ghost predicate LatestAccepts(db: Db, rules: SchemaRules, family: Id, document: Object) {
    exists r :: IsLatestOf(db, family, r) && rules.accepts(db.revisions[r].schema, document)
  }

  /** The entity is created under the family's latest revision, which accepts the document; the event
      carries the family's key. */
  ghost predicate CreatesUnder(db: Db, rules: SchemaRules, e: Id, family: Id, revision: Id, document: Object, source: string, refs: seq<Ref>, db': Db) {
    IsLatestOf(db, family, revision) && rules.accepts(db.revisions[revision].schema, document) && family in db.families &&
    CreateDoes(db, e, family, revision, document, source, refs, db.families[family].namespace + "/" + db.families[family].code, db')
  }

  lemma NothingPublished(db: Db, rules: SchemaRules, family: Id, document: Object)
    requires RevisionNumbers(db.revisions, family) == {}
    ensures !LatestAccepts(db, rules, family, document)
  {
    forall q | q in db.revisions && db.revisions[q].family == family ensures db.revisions[q].no in RevisionNumbers(db.revisions, family) {}
  }

  lemma AcceptedByLatest(db: Db, rules: SchemaRules, family: Id, r: Id, document: Object)
    requires T.Chosen(db, family, Latest, r) && forall q :: T.Chosen(db, family, Latest, q) ==> q == r
    ensures IsLatestOf(db, family, r)
    ensures LatestAccepts(db, rules, family, document) <==> rules.accepts(db.revisions[r].schema, document)
  {
    hide T.Chosen, IsLatestOf;
    LatestIsChosen(db, family, r);
    forall q ensures T.Chosen(db, family, Latest, q) <==> IsLatestOf(db, family, q) { LatestIsChosen(db, family, q); }
  }

  ghost predicate CreateFails(db: Db, rules: SchemaRules, family: Id, document: Object, refs: seq<Ref>, e: Failure) {
    match e
    case InvalidRefs(x) => IsFirstError(refs, x)
    case EntityTypeNotFound => ValidRefs(refs) && RevisionNumbers(db.revisions, family) == {} && family !in db.families
    case EntityTypeNotPublished => ValidRefs(refs) && RevisionNumbers(db.revisions, family) == {} && family in db.families
    case SchemaRejected => ValidRefs(refs) && RevisionNumbers(db.revisions, family) != {} && !LatestAccepts(db, rules, family, document)
    case MappingConflict =>
      ValidRefs(refs) && LatestAccepts(db, rules, family, document) && exists m :: m in db.mappings && m.ref in TrimmedAll(refs)
    case _ => false
  }

  lemma LatestExists(db: Db, family: Id)
    requires RevisionNumbers(db.revisions, family) != {}
    ensures exists r :: r in db.revisions && T.Chosen(db, family, Latest, r)
  {
    var r :| r in db.revisions && db.revisions[r].family == family && db.revisions[r].no == MaxRevision(db.revisions, family);
    assert T.Chosen(db, family, Latest, r);
  }

  lemma LatestIsOne(db: Db, family: Id, r: Id)
    requires Sound(db) && T.Chosen(db, family, Latest, r)
    ensures forall q :: T.Chosen(db, family, Latest, q) ==> q == r
  {
    hide VersionsSound, EventsSound, HistoriesSound, MappingsSound, ConflictsSound, BindingsSound, MaxRevision;
  }

  lemma RevisionIsOfFamily(db: Db, r: Id, family: Id)
    requires Sound(db) && r in db.revisions && db.revisions[r].family == family
    ensures Revises(db, r, family)
  {
    hide VersionsSound, EventsSound, HistoriesSound, MappingsSound, ConflictsSound, BindingsSound;
  }

  lemma CreatedNew(db: Db, db': Db, e: Id)
    requires Sound(db) && e !in db.issued
    ensures e !in db.entities
  {
    hide CatalogSound, VersionsSound, EventsSound, HistoriesSound, MappingsSound, ConflictsSound, BindingsSound;
  }

  lemma NobodyHas(db: Db, e: Id, refs: seq<Ref>)
    requires Sound(db) && e !in db.issued && RefsFree(db.mappings, e, refs)
    ensures forall m :: m in db.mappings ==> m.ref !in TrimmedAll(refs)
  {
    hide CatalogSound, VersionsSound, EventsSound, HistoriesSound, ConflictsSound, BindingsSound, UpToDate, TrimmedAll;
  }

  lemma CreateAlone(db: Db, rules: SchemaRules, family: Id, document: Object, source: string, refs: seq<Ref>,
                    e: Id, revision: Id, stored: Object, db': Db)
    requires Sound(db) && ValidRefs(refs) && e !in db.issued && RefsFree(db.mappings, e, refs)
    requires T.Chosen(db, family, Latest, revision) && Revises(db, revision, family)
    requires rules.accepts(db.revisions[revision].schema, document)
    requires InitialOutcome(document, source, stored) && db' == Created(db, e, family, revision, TypeKey(db.families[family]), stored, refs)
    ensures RunsAlone(db, rules, T.Create(family, document, source, refs), db') && Sound(db')
    ensures e !in db.entities && e in db'.entities && HasDocument(db', e) && IsCurrent(db', SnapshotOf(db', e))
    ensures CreatesUnder(db, rules, e, family, revision, document, source, refs, db') && Document(db', e) == stored && MaxVersion(db'.versions, e) == 1
  {
    hide Sound, InitialOutcome, Created, MaxVersion, Changes, RefsFree, CreateDoes, IsLatestOf;
    LatestIsChosen(db, family, revision);
    CreateIsDone(db, e, family, revision, document, source, refs, TypeKey(db.families[family]), db');
    CreatedDocument(db, e, family, revision, TypeKey(db.families[family]), stored, refs);
    CreateSound(db, e, family, revision, document, source, refs, TypeKey(db.families[family]), db');
    assert FindsRevision(db, T.Create(family, document, source, refs), Some(revision));
    CreatedNew(db, db', e);
    LiveHasDocument(db', e);
  }

  lemma CreatedDocument(db: Db, e: Id, f: Id, r: Id, key: string, doc: Object, refs: seq<Ref>)
    requires Sound(db) && e !in db.issued && Revises(db, r, f)
    ensures
      var db' := Created(db, e, f, r, key, doc, refs);
      HasDocument(db', e) && Document(db', e) == doc && MaxVersion(db'.versions, e) == 1
  {
    hide Sound, MaxVersion, AddVersion, StoresVersion, ReplaceRefs;
    var mid := AddVersion(AddEntity(db, e, Entity(f, r)), e, key, 1, doc);
    FirstVersionStored(db, e, f, r, key, doc);
    StoredIsCurrent(db, mid, e, key, doc);
  }

  // ---------- updating ----------

  ghost predicate UpdateFails(db: Db, e: Id, refs: seq<Ref>, error: Failure) {
    match error
    case InvalidRefs(x) => IsFirstError(refs, x)
    case NotFound => ValidRefs(refs) && e !in db.entities
    case MappingConflict => ValidRefs(refs) && e in db.entities && !RefsFree(db.mappings, e, refs)
    case _ => false
  }

  lemma ConflictsRecorded(db: Db, e: Id, candidates: seq<ConflictCandidate>, ids: seq<Id>)
    requires Sound(db) && e in db.entities && |ids| == |candidates| && FreshIds(db, ids)
    ensures
      var db' := AddConflicts(db, e, candidates, ids);
      Sound(db') && OnlyConflictsDiffer(db, db') && Bound(db', e) && (candidates != [] ==> db.issued < db'.issued)
  {
    hide Sound, Changes;
    AddConflictsSound(db, e, candidates, ids);
    LiveHasDocument(db, e);
    if candidates != [] {
      assert ids[0] in set c | c in ids;
    }
  }

  lemma UpdateAlone(db: Db, rules: SchemaRules, e: Id, document: Object, source: string, refs: seq<Ref>, merged: Object,
                    candidates: seq<ConflictCandidate>, docChanged: bool, ids: seq<Id>, db': Db)
    requires Sound(db) && e in db.entities && HasDocument(db, e) && Bound(db, e) && ValidRefs(refs)
    requires ApplyOutcome(Document(db, e), document, source, merged, candidates, docChanged)
    requires |ids| == |candidates| && FreshIds(db, ids)
    requires
      var recorded := AddConflicts(db, e, candidates, ids);
      OnlyConflictsDiffer(db, recorded) && Bound(recorded, e) &&
      if docChanged || RefsDiffer(RefsOf(db.mappings, e), refs)
      then RefsFree(db.mappings, e, refs) &&
           db' == WithRefs(AddVersion(recorded, e, KeyOf(db, e), MaxVersion(db.versions, e) + 1, if docChanged then merged else Document(db, e)), e, refs)
      else db' == recorded
    ensures RunsAlone(db, rules, T.Update(e, document, source, refs), db') && Sound(db')
    ensures e in db'.entities && HasDocument(db', e) && IsCurrent(db', SnapshotOf(db', e))
  {
    hide Sound, ApplyOutcome, MaxVersion, Changes, RefsOf, AddVersion, AddConflicts, RefsFree, FreshIds, ReplaceRefs, ValidRefs, RefsDiffer;
    var task := T.Update(e, document, source, refs);
    var seen := SeenNow(db, task, None);
    NextIsFree(db, e);
    AddVersionOnly(AddConflicts(db, e, candidates, ids), e, KeyOf(db, e), MaxVersion(db.versions, e) + 1, if docChanged then merged else Document(db, e));
    assert UpdateWrites(db, e, document, source, refs, Document(db, e), RefsOf(db.mappings, e), seen.next, seen.key, db');
    assert FindsRevision(db, task, None);
    AloneSound(db, rules, task, db');
    LiveAfter(db, task, e, db');
  }

  lemma FreeMeans(mappings: set<Mapping>, e: Id, refs: seq<Ref>)
    ensures RefsFree(mappings, e, refs) <==> forall m :: m in mappings && m.entity != e ==> !IsAskedFor(m.ref, refs)
  {
    hide IsAskedFor, TrimmedAll;
    AskedForIsTrimmed(refs);
  }

  lemma UpdateAloneLeaves(db: Db, e: Id, refs: seq<Ref>, merged: Object, candidates: seq<ConflictCandidate>, docChanged: bool, ids: seq<Id>, db': Db)
    requires Sound(db) && HasDocument(db, e) && Bound(db, e) && |ids| == |candidates| && FreshIds(db, ids)
    requires
      var recorded := AddConflicts(db, e, candidates, ids);
      OnlyConflictsDiffer(db, recorded) && Bound(recorded, e) &&
      if docChanged || RefsDiffer(RefsOf(db.mappings, e), refs)
      then RefsFree(db.mappings, e, refs) &&
           db' == WithRefs(AddVersion(recorded, e, KeyOf(db, e), MaxVersion(db.versions, e) + 1, if docChanged then merged else Document(db, e)), e, refs)
      else db' == recorded
    ensures UpdateLeaves(db, e, merged, candidates, docChanged, ids, refs, Some(KeyOf(db, e)), db')
    ensures HasDocument(db', e) && Document(db', e) == if docChanged then merged else Document(db, e)
  {
    hide Sound, MaxVersion, RefsOf, AddVersion, AddConflicts, RefsFree, FreshIds, ReplaceRefs, RecordsConflicts, StoresVersion, HasReferences, KeyOf;
    var recorded := AddConflicts(db, e, candidates, ids);
    var doc := if docChanged then merged else Document(db, e);
    var changed := docChanged || RefsDiffer(RefsOf(db.mappings, e), refs);
    var next := MaxVersion(db.versions, e) + 1;
    NextIsFree(db, e);
    assert UpdateStores(recorded, e, doc, changed, refs, Some(next), Some(KeyOf(db, e)), db');
    ConflictsAreRecorded(db, e, candidates, ids);
    UpdateIsStored(db, recorded, e, doc, changed, refs, Some(next), Some(KeyOf(db, e)), db');
    SameConflicts(db, recorded, db', e, candidates, ids);
    if changed { StoredIsCurrent(db, db', e, KeyOf(db, e), doc); }
  }

  lemma NextIsFree(db: Db, e: Id)
    requires Sound(db)
    ensures VersionFree(db, e, MaxVersion(db.versions, e) + 1)
  {
    hide MaxVersion;
    assert Numbered(db.versions, e);
  }

  /** A transaction leaves the row `e` in place unless it merges it away. */
  lemma LiveAfter(db: Db, task: T.Task, e: Id, db': Db)
    requires Sound(db') && e in db.entities && db'.entities.Keys == db.entities.Keys
    ensures e in db'.entities && HasDocument(db', e) && IsCurrent(db', SnapshotOf(db', e))
  {
    hide Sound, MaxVersion;
    LiveHasDocument(db', e);
  }

  // ---------- resolving ----------

  function PathOf(conflict: Conflict): string {
    JoinNsField(conflict.candidate.ns, conflict.candidate.fieldKey)
  }

  lemma ConflictIsLive(db: Db, c: Id)
    requires Sound(db) && c in db.conflicts
    ensures db.conflicts[c].entity in db.entities
  {
    hide CatalogSound, BindingsSound, VersionsSound, EventsSound, HistoriesSound, MappingsSound, UpToDate;
  }

  lemma ResolveAlone(db: Db, rules: SchemaRules, c: Id, value: Json, stored: Object, db': Db)
    requires Sound(db) && c in db.conflicts && db.conflicts[c].status.Open?
    requires
      var e := db.conflicts[c].entity;
      Bound(db, e) && HasDocument(db, e) && ResolveOutcome(Document(db, e), PathOf(db.conflicts[c]), value, stored) &&
      db' == WithResolution(db, c, e, MaxVersion(db.versions, e) + 1, KeyOf(db, e), stored)
    ensures
      var e := db.conflicts[c].entity;
      RunsAlone(db, rules, T.Resolve(e, c, PathOf(db.conflicts[c]), value), db') && Sound(db') &&
      e in db'.entities && HasDocument(db', e) && IsCurrent(db', SnapshotOf(db', e)) &&
      c in db'.conflicts && db'.conflicts[c].status.Resolved?
  {
    hide Sound, ResolveOutcome, MaxVersion, RefsOf, Changes, IsCurrent;
    var e := db.conflicts[c].entity;
    var task := T.Resolve(e, c, PathOf(db.conflicts[c]), value);
    NextIsFree(db, e);
    assert FindsRevision(db, task, None);
    assert T.Writes(db, rules, task, SeenNow(db, task, None), db');
    AloneSound(db, rules, task, db');
    LiveAfter(db, task, e, db');
  }

  lemma ResolveAloneDoes(db: Db, c: Id, value: Json, stored: Object, db': Db)
    requires Sound(db) && c in db.conflicts
    requires
      var e := db.conflicts[c].entity;
      Bound(db, e) && HasDocument(db, e) && ResolveOutcome(Document(db, e), PathOf(db.conflicts[c]), value, stored) &&
      db' == WithResolution(db, c, e, MaxVersion(db.versions, e) + 1, KeyOf(db, e), stored)
    ensures
      var e := db.conflicts[c].entity;
      ResolveDoes(db, c, e, PathOf(db.conflicts[c]), value, KeyOf(db, e), db') && OnlyResolves(db.conflicts, db'.conflicts, c) &&
      HasDocument(db', e) && Document(db', e) == stored
  {
    hide Sound, MaxVersion, ResolveOutcome, StoresVersion, AddVersion;
    var e := db.conflicts[c].entity;
    NextIsFree(db, e);
    ResolveIsDone(db, c, e, PathOf(db.conflicts[c]), value, MaxVersion(db.versions, e) + 1, KeyOf(db, e), db');
    AddVersionOnly(db, e, KeyOf(db, e), MaxVersion(db.versions, e) + 1, stored);
    VersionStored(db, e, KeyOf(db, e), stored);
    VersionBeside(db, db, e, KeyOf(db, e), stored, db');
    StoredIsCurrent(db, db', e, KeyOf(db, e), stored);
  }

  // ---------- merging ----------

  predicate MergeFails(db: Db, from: Id, into: Id, error: Failure) {
    match error
    case NotFound => from != into && (from !in db.entities || into !in db.entities)
    case MergeInvalid =>
      from == into || (from in db.entities && into in db.entities && db.entities[from].family != db.entities[into].family)
    case _ => false
  }

  lemma NoCollision(db: Db, from: Id, into: Id)
    requires Sound(db) && from != into
    ensures
      SharedRefs(db.mappings, from, into) == {} &&
      RefsOf(MoveMappings(db.mappings, from, into), into) == RefsOf(db.mappings, from) + RefsOf(db.mappings, into)
  {
    hide CatalogSound, BindingsSound, VersionsSound, EventsSound, HistoriesSound, ConflictsSound, UpToDate, SharedRefs, RefsOf, MoveMappings;
    MovingKeepsReferences(db.entities, db.mappings, from, into);
  }

  lemma MergeAlone(db: Db, rules: SchemaRules, from: Id, into: Id, merged: Object, db': Db)
    requires Sound(db) && from in db.entities && Bound(db, into) && from != into && db.entities[from].family == db.entities[into].family
    requires HasDocument(db, from) && HasDocument(db, into) && DuplicateOutcome(Document(db, into), Document(db, from), merged)
    requires db' == Merged(db, from, into, MaxVersion(db.versions, into) + 1, KeyOf(db, into), merged)
    ensures RunsAlone(db, rules, T.Merge(from, into), db') && Sound(db') && from !in db'.entities
    ensures into in db'.entities && HasDocument(db', into) && IsCurrent(db', SnapshotOf(db', into))
    ensures RefsOf(db'.mappings, into) == RefsOf(db.mappings, from) + RefsOf(db.mappings, into)
    ensures MergeDoes(db, from, into, KeyOf(db, into), db') && Document(db', into) == merged
  {
    hide Sound, DuplicateOutcome, MaxVersion, RefsOf, Changes, SharedRefs, MoveMappings, IsCurrent, SnapshotOf, AddVersion, MergeLeaves;
    MergedLeaves(db, from, into, KeyOf(db, into), merged);
    MergedDocument(db, from, into, KeyOf(db, into), merged, db');
    var task := T.Merge(from, into);
    AddVersionOnly(Moved(db, from, into), into, KeyOf(db, into), MaxVersion(db.versions, into) + 1, merged);
    NextIsFree(db, into);
    NoCollision(db, from, into);
    assert FindsRevision(db, task, None);
    assert T.Writes(db, rules, task, SeenNow(db, task, None), db');
    AloneSound(db, rules, task, db');
    RefsAfterRemoval(Moved(db, from, into).mappings, from, into);
    LiveHasDocument(db', into);
    SnapshotIsCurrent(db', into);
  }

  lemma MergedDocument(db: Db, from: Id, into: Id, key: string, merged: Object, db': Db)
    requires Sound(db) && from != into && MergeLeaves(db, from, into, key, merged, db')
    ensures HasDocument(db', into) && Document(db', into) == merged
  {
    hide Sound, MaxVersion;
    NowCurrent(db, db', into, merged);
  }

  lemma SnapshotIsCurrent(db: Db, e: Id)
    requires e in db.entities && HasDocument(db, e)
    ensures IsCurrent(db, SnapshotOf(db, e))
  {
  }

  lemma RefsAfterRemoval(mappings: set<Mapping>, e: Id, x: Id)
    requires x != e
    ensures RefsOf((set m | m in mappings && m.entity != e), x) == RefsOf(mappings, x)
  {
    var rest := set m | m in mappings && m.entity != e;
    forall r | r in RefsOf(mappings, x) ensures r in RefsOf(rest, x) {
      var m :| m in mappings && m.entity == x && m.ref == r;
      assert m in rest;
    }
  }

  // ---------- upgrading ----------

  /** The revision that a request names: by id, by number, or none of the two for the latest. */
  datatype Target = Target(id: Option<Id>, no: Option<int>)

  function ChoiceOf(t: Target): Option<Choice> {
    if t.id.Some? && t.no.Some? then None
    else if t.id.Some? then Some(ById(t.id.value))
    else if t.no.Some? then (if t.no.value <= 0 then None else Some(ByNumber(t.no.value)))
    else Some(Latest)
  }

  /** The revision is the one that the request names: it belongs to the family, and has the id or the
      number given, or the highest number when neither is. */
  predicate IsTarget(db: Db, family: Id, target: Target, r: Id) {
    r in db.revisions && db.revisions[r].family == family && (target.id.Some? ==> r == target.id.value && target.no.None?) &&
    (target.no.Some? ==> db.revisions[r].no == target.no.value > 0) && (target == Target(None, None) ==> IsLatestOf(db, family, r))
  }

  lemma TargetIsChosen(db: Db, family: Id, target: Target, r: Id)
    ensures ChoiceOf(target).Some? && T.Chosen(db, family, ChoiceOf(target).value, r) <==> IsTarget(db, family, target, r)
  {
    hide IsLatestOf;
    LatestIsChosen(db, family, r);
  }

  method ResolveTargetRevision(db: Db, family: Id, target: Target) returns (r: Outcome<Id>)
    ensures r.Done? ==> ChoiceOf(target).Some? && T.Chosen(db, family, ChoiceOf(target).value, r.value) && IsTarget(db, family, target, r.value)
    ensures r.Failed? ==> forall q :: !IsTarget(db, family, target, q)
    ensures r == Failed(InvalidChoice) <==> (target.id.Some? && target.no.Some?) || (target.no.Some? && target.no.value <= 0)
    ensures r.Failed? ==> NoTarget(db, family, target, r.error)
  {
    hide IsTarget, IsLatestOf;
    forall q ensures ChoiceOf(target).Some? && T.Chosen(db, family, ChoiceOf(target).value, q) <==> IsTarget(db, family, target, q) {
      TargetIsChosen(db, family, target, q);
    }
    if target.id.Some? && target.no.Some? {
      return Failed(InvalidChoice);
    }
    if target.id.Some? {
      var id := target.id.value;
      if id in db.revisions && db.revisions[id].family == family {
        return Done(id);
      }
      return Failed(InvalidUpgrade);
    }
    if target.no.Some? {
      if target.no.value <= 0 {
        return Failed(InvalidChoice);
      }
      if q :| q in db.revisions && db.revisions[q].family == family && db.revisions[q].no == target.no.value {
        return Done(q);
      }
      return Failed(InvalidUpgrade);
    }
    if RevisionNumbers(db.revisions, family) == {} {
      NoneChosen(db, family);
      return Failed(InvalidUpgrade);
    }
    LatestExists(db, family);
    var q :| q in db.revisions && T.Chosen(db, family, Latest, q);
    return Done(q);
  }

  lemma NoneChosen(db: Db, family: Id)
    requires RevisionNumbers(db.revisions, family) == {}
    ensures forall q :: !T.Chosen(db, family, Latest, q)
  {
    forall q | q in db.revisions && db.revisions[q].family == family ensures db.revisions[q].no in RevisionNumbers(db.revisions, family) {}
  }

  ghost predicate NoTarget(db: Db, family: Id, target: Target, error: Failure) {
    match error
    case InvalidChoice => ChoiceOf(target).None?
    case InvalidUpgrade => ChoiceOf(target).Some? && forall q :: !T.Chosen(db, family, ChoiceOf(target).value, q)
    case _ => false
  }

  lemma ChosenIsRevision(db: Db, family: Id, choice: Choice, r: Id)
    requires T.Chosen(db, family, choice, r)
    ensures r in db.revisions && db.revisions[r].family == family
  {
  }

  predicate UpgradeRejected(db: Db, rules: SchemaRules, e: Id, choice: Choice, r: Id) {
    e in db.entities && HasDocument(db, e) && T.Chosen(db, db.entities[e].family, choice, r) && r != db.entities[e].revision &&
    !rules.accepts(db.revisions[r].schema, Document(db, e))
  }

  ghost predicate UpgradeFails(db: Db, rules: SchemaRules, e: Id, target: Target, error: Failure) {
    match error
    case NotFound => e !in db.entities
    case InvalidChoice => e in db.entities && ChoiceOf(target).None?
    case InvalidUpgrade => e in db.entities && NoTarget(db, db.entities[e].family, target, error)
    case SchemaRejected => ChoiceOf(target).Some? && exists r :: UpgradeRejected(db, rules, e, ChoiceOf(target).value, r)
    case _ => false
  }

  /** What one upgrade does and answers. */
  ghost predicate UpgradeResult(db: Db, rules: SchemaRules, e: Id, target: Target, r: Outcome<Snapshot>, db': Db) {
    if r.Failed? then db' == db && UpgradeFails(db, rules, e, target, r.error)
    else
      ChoiceOf(target).Some? && RunsAlone(db, rules, T.Upgrade(e, ChoiceOf(target).value), db') &&
      IsCurrent(db', r.value) && r.value.entity == e
  }

  lemma UpgradeAlone(db: Db, rules: SchemaRules, e: Id, choice: Choice, revision: Id, db': Db)
    requires Sound(db) && Bound(db, e) && HasDocument(db, e) && T.Chosen(db, db.entities[e].family, choice, revision)
    requires
      if revision == db.entities[e].revision then db' == db
      else
        rules.accepts(db.revisions[revision].schema, Document(db, e)) && Bound(Bind(db, e, revision), e) &&
        db' == AddVersion(Bind(db, e, revision), e, KeyOf(db, e), MaxVersion(db.versions, e) + 1, Document(db, e))
    ensures RunsAlone(db, rules, T.Upgrade(e, choice), db') && Sound(db')
    ensures e in db'.entities && HasDocument(db', e) && IsCurrent(db', SnapshotOf(db', e))
  {
    hide Sound, MaxVersion, RefsOf, Changes, IsCurrent, T.Chosen;
    var task := T.Upgrade(e, choice);
    NextIsFree(db, e);
    ChosenIsRevision(db, db.entities[e].family, choice, revision);
    assert FindsRevision(db, task, Some(revision));
    assert T.Writes(db, rules, task, SeenNow(db, task, Some(revision)), db');
    AloneSound(db, rules, task, db');
    LiveAfter(db, task, e, db');
  }

  lemma UpgradeAloneDoes(db: Db, rules: SchemaRules, e: Id, choice: Choice, revision: Id, db': Db)
    requires Sound(db) && Bound(db, e) && HasDocument(db, e) && T.Chosen(db, db.entities[e].family, choice, revision)
    requires
      if revision == db.entities[e].revision then db' == db
      else
        rules.accepts(db.revisions[revision].schema, Document(db, e)) && Bound(Bind(db, e, revision), e) &&
        db' == AddVersion(Bind(db, e, revision), e, KeyOf(db, e), MaxVersion(db.versions, e) + 1, Document(db, e))
    ensures UpgradeDoes(db, e, revision, rules, Some(KeyOf(db, e)), db') && HasDocument(db', e) && Document(db', e) == Document(db, e)
  {
    hide Sound, MaxVersion, StoresVersion, AddVersion, KeyOf;
    NextIsFree(db, e);
    var (next, key) := (Some(MaxVersion(db.versions, e) + 1), Some(KeyOf(db, e)));
    assert UpgradeWrites(db, e, revision, rules, Document(db, e), next, key, db');
    UpgradeIsDone(db, e, revision, rules, next, key, db');
    if revision != db.entities[e].revision { StoredIsCurrent(db, db', e, KeyOf(db, e), Document(db, e)); }
  }
}
