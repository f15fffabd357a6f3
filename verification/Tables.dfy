/** The tables of one tenant, what each statement that writes them does, and what every committed
    state keeps. */
module Tables {
  import opened Basics
  import opened JsonValues
  import opened Maps
  import opened AuthorityMerge
  import opened ExternalRefs
  import opened ProfileSteps

  datatype Family = Family(namespace: string, code: string)
  datatype Draft = Draft(schema: Object, version: int)
  datatype Revision = Revision(family: Id, no: int, schema: Object)
  datatype Entity = Entity(family: Id, revision: Id)
  datatype VersionKey = VersionKey(entity: Id, version: int) {
    function Next(): VersionKey { VersionKey(entity, version + 1) }
  }
  datatype Event = Event(typeKey: string, revision: Id, revisionNo: int)
  datatype Mapping = Mapping(ref: Ref, entity: Id)
  datatype Status = Open | Resolved
  datatype Conflict = Conflict(entity: Id, candidate: ConflictCandidate, status: Status)

  datatype Db = Db(
    families: map<Id, Family>,
    drafts: map<Id, Draft>,
    revisions: map<Id, Revision>,
    entities: map<Id, Entity>,
    versions: map<VersionKey, Object>,
    outbox: map<VersionKey, Event>,
    mappings: set<Mapping>,
    conflicts: map<Id, Conflict>,
    issued: set<Id>)

  function EmptyDb(): Db {
    Db(map[], map[], map[], map[], map[], map[], {}, map[], {})
  }

  // ---------- queries ----------

  function VersionNumbers(versions: map<VersionKey, Object>, e: Id): set<int> {
    set k | k in versions && k.entity == e :: k.version
  }

  function MaxVersion(versions: map<VersionKey, Object>, e: Id): int {
    MaxOf(VersionNumbers(versions, e))
  }

  function RevisionNumbers(revisions: map<Id, Revision>, f: Id): set<int> {
    set r | r in revisions && revisions[r].family == f :: revisions[r].no
  }

  function MaxRevision(revisions: map<Id, Revision>, f: Id): int {
    MaxOf(RevisionNumbers(revisions, f))
  }

  function RefsOf(mappings: set<Mapping>, e: Id): set<Ref> {
    set m | m in mappings && m.entity == e :: m.ref
  }

  // ---------- what every committed state keeps ----------

  /** The versions of `e` are exactly 1 .. n. */
  ghost predicate Numbered(versions: map<VersionKey, Object>, e: Id) {
    forall k: VersionKey :: k.entity == e ==> (k in versions <==> 1 <= k.version <= MaxVersion(versions, e))
  }

  ghost predicate RevisionsNumbered(revisions: map<Id, Revision>, f: Id) {
    forall no :: no in RevisionNumbers(revisions, f) <==> 1 <= no <= MaxRevision(revisions, f)
  }

  ghost predicate OneRevisionPerNumber(revisions: map<Id, Revision>) {
    forall r, q :: r in revisions && q in revisions ==>
      revisions[r].family == revisions[q].family && revisions[r].no == revisions[q].no ==> r == q
  }

  /** Families have distinct keys and one draft each; their revisions are exactly 1 .. n. */
  ghost predicate CatalogSound(families: map<Id, Family>, drafts: map<Id, Draft>, revisions: map<Id, Revision>) {
    drafts.Keys == families.Keys &&
    (forall f, g :: f in families && g in families && families[f] == families[g] ==> f == g) &&
    (forall r :: r in revisions ==> revisions[r].family in families) &&
    (forall f :: f in families ==> RevisionsNumbered(revisions, f)) &&
    OneRevisionPerNumber(revisions)
  }

  /** Every entity is bound to a revision of its own family. */
  ghost predicate BindingsSound(families: map<Id, Family>, revisions: map<Id, Revision>, entities: map<Id, Entity>) {
    forall e :: e in entities ==>
      entities[e].family in families && entities[e].revision in revisions &&
      revisions[entities[e].revision].family == entities[e].family
  }

  /** Versions belong to entities, are numbered without gaps, and have one event each. */
  ghost predicate VersionsSound(entities: map<Id, Entity>, versions: map<VersionKey, Object>, outbox: map<VersionKey, Event>) {
    (forall k :: k in versions ==> k.entity in entities) &&
    (forall e :: Numbered(versions, e)) &&
    outbox.Keys == versions.Keys
  }

  /** Each event names a revision of its entity's family, with that revision's number. */
  ghost predicate EventsSound(entities: map<Id, Entity>, revisions: map<Id, Revision>, outbox: map<VersionKey, Event>) {
    forall k :: k in outbox && k.entity in entities ==>
      outbox[k].revision in revisions &&
      revisions[outbox[k].revision].family == entities[k.entity].family &&
      revisions[outbox[k].revision].no == outbox[k].revisionNo
  }

  /** Every stored document follows from the one before it. */
  ghost predicate HistoriesSound(versions: map<VersionKey, Object>) {
    (forall k :: k in versions && k.version == 1 ==> IsFirst(versions[k])) &&
    forall k :: k in versions && k.Next() in versions ==> Follows(versions[k], versions[k.Next()])
  }

  /** A reference leads to one entity. */
  ghost predicate MappingsSound(entities: map<Id, Entity>, mappings: set<Mapping>) {
    (forall m :: m in mappings ==> m.entity in entities && Trimmed(m.ref) == m.ref) &&
    forall m, n :: m in mappings && n in mappings && m.ref == n.ref ==> m == n
  }

  ghost predicate ConflictsSound(entities: map<Id, Entity>, conflicts: map<Id, Conflict>) {
    forall c :: c in conflicts ==> conflicts[c].entity in entities
  }

  ghost predicate IdsIssued(db: Db) {
    db.families.Keys <= db.issued && db.revisions.Keys <= db.issued &&
    db.entities.Keys <= db.issued && db.conflicts.Keys <= db.issued && db.entities.Keys !! db.families.Keys
  }

  /** `e` has a version, and the event of the latest one names the revision `e` is bound to. */
  ghost predicate UpToDate(db: Db, e: Id)
    requires e in db.entities
  {
    var k := VersionKey(e, MaxVersion(db.versions, e));
    k in db.versions && k in db.outbox && db.outbox[k].revision == db.entities[e].revision
  }

  /** What holds of the tables also between the statements of one transaction. */
  ghost predicate Consistent(db: Db) {
    && CatalogSound(db.families, db.drafts, db.revisions)
    && BindingsSound(db.families, db.revisions, db.entities)
    && VersionsSound(db.entities, db.versions, db.outbox)
    && EventsSound(db.entities, db.revisions, db.outbox)
    && HistoriesSound(db.versions)
    && MappingsSound(db.entities, db.mappings)
    && ConflictsSound(db.entities, db.conflicts)
    && IdsIssued(db)
  }

  /** Only `e` may lack a version of its present binding. */
  ghost predicate SoundExcept(db: Db, e: Id) {
    Consistent(db) && forall x :: x in db.entities && x != e ==> UpToDate(db, x)
  }

  /** What holds of every committed state. */
  ghost predicate Sound(db: Db) {
    Consistent(db) && forall x :: x in db.entities ==> UpToDate(db, x)
  }

  lemma EmptyIsSound()
    ensures Sound(EmptyDb())
  {
    hide UpToDate, MaxVersion;
    var db := EmptyDb();
    forall e: Id ensures Numbered(db.versions, e) {
      assert VersionNumbers(db.versions, e) == {};
      assert MaxVersion(db.versions, e) == 0 by { NoVersionsYet(e); }
    }
  }

  lemma NoVersionsYet(e: Id)
    ensures MaxVersion(map[], e) == 0
  {
    assert VersionNumbers(map[], e) == {};
  }

  // ---------- what no step undoes ----------

  /** From `db` to `db'` no id is reused, and no version, event, revision, or conflict of a row
      that still exists is lost or altered. */
  ghost predicate Evolves(db: Db, db': Db) {
    && db.issued <= db'.issued
    && (forall e :: e in db'.entities ==> e in db.entities || e !in db.issued)
    && (forall e :: e in db'.entities && e in db.entities ==> db'.entities[e].family == db.entities[e].family)
    && (forall f :: f in db'.families ==> f in db.families || f !in db.issued)
    && VersionsEvolve(db, db')
    && RevisionsEvolve(db, db')
    && ConflictsEvolve(db, db')
  }

  ghost predicate VersionsEvolve(db: Db, db': Db) {
    && (forall k :: k in db.versions && k in db'.versions ==> db'.versions[k] == db.versions[k])
    && (forall k :: k in db.versions && k.entity in db'.entities ==> k in db'.versions)
    && (forall k :: k in db.outbox && k in db'.outbox ==> db'.outbox[k] == db.outbox[k])
  }

  ghost predicate RevisionsEvolve(db: Db, db': Db) {
    && (forall r :: r in db'.revisions ==> r in db.revisions || r !in db.issued)
    && (forall r :: r in db.revisions && r in db'.revisions ==> db'.revisions[r] == db.revisions[r])
    && (forall r :: r in db.revisions && db.revisions[r].family in db'.families ==> r in db'.revisions)
  }

  ghost predicate ConflictsEvolve(db: Db, db': Db) {
    && (forall c :: c in db'.conflicts ==> c in db.conflicts || c !in db.issued)
    && (forall c :: c in db.conflicts && db.conflicts[c].entity in db'.entities ==> c in db'.conflicts)
    && (forall c :: c in db.conflicts && c in db'.conflicts ==>
         db'.conflicts[c].entity == db.conflicts[c].entity &&
         db'.conflicts[c].candidate == db.conflicts[c].candidate &&
         (db.conflicts[c].status.Resolved? ==> db'.conflicts[c].status.Resolved?))
  }

  lemma EvolvesTransitive(a: Db, b: Db, c: Db)
    requires Consistent(a) && Consistent(b) && Consistent(c) && Evolves(a, b) && Evolves(b, c)
    ensures Evolves(a, c)
  {
    hide CatalogSound, BindingsSound, EventsSound, HistoriesSound, MappingsSound, UpToDate, Numbered, RevisionsEvolve, ConflictsEvolve;
    forall e | e in a.entities && e in c.entities ensures e in b.entities {}
    assert VersionsEvolve(a, c);
    RevisionsEvolveOn(a, b, c);
    ConflictsEvolveOn(a, b, c);
  }

  lemma RevisionsEvolveOn(a: Db, b: Db, c: Db)
    requires Consistent(a) && Evolves(a, b) && Evolves(b, c)
    ensures RevisionsEvolve(a, c)
  {
    hide BindingsSound, VersionsSound, EventsSound, HistoriesSound, MappingsSound, ConflictsSound, UpToDate, RevisionsNumbered, OneRevisionPerNumber, VersionsEvolve, ConflictsEvolve;
    forall f | f in a.families && f in c.families ensures f in b.families {}
    forall r | r in a.revisions && r in c.revisions ensures r in b.revisions {}
  }

  lemma ConflictsEvolveOn(a: Db, b: Db, c: Db)
    requires Consistent(a) && Evolves(a, b) && Evolves(b, c)
    ensures ConflictsEvolve(a, c)
  {
    hide CatalogSound, BindingsSound, VersionsSound, EventsSound, HistoriesSound, MappingsSound, UpToDate, VersionsEvolve, RevisionsEvolve;
    forall e | e in a.entities && e in c.entities ensures e in b.entities {}
    forall x | x in a.conflicts && x in c.conflicts ensures x in b.conflicts {}
  }

  /** Everything that hangs on the row `x` is the same in both states. */
  ghost predicate Undisturbed(db: Db, db': Db, x: Id) {
    && (x in db.entities ==> x in db'.entities && db'.entities[x] == db.entities[x])
    && (forall k: VersionKey :: k.entity == x ==> (k in db.versions <==> k in db'.versions))
    && (forall m: Mapping :: m.entity == x ==> (m in db.mappings <==> m in db'.mappings))
    && (x in db.drafts ==> x in db'.drafts && db'.drafts[x] == db.drafts[x])
    && (forall r :: (r in db.revisions && db.revisions[r].family == x) <==> (r in db'.revisions && db'.revisions[r].family == x))
  }

  /** A transaction leads from `db` to `db'` and disturbs, of the rows there were, only those in
      `touched`. */
  ghost predicate Changes(db: Db, db': Db, touched: set<Id>) {
    Evolves(db, db') && forall x :: x in db.issued && x !in touched ==> Undisturbed(db, db', x)
  }

  lemma ChangesTransitive(a: Db, b: Db, c: Db, touched: set<Id>)
    requires Consistent(a) && Consistent(b) && Consistent(c)
    requires Changes(a, b, touched) && Changes(b, c, touched)
    ensures Changes(a, c, touched)
  {
    hide Consistent, Undisturbed;
    EvolvesTransitive(a, b, c);
    forall x | x in a.issued && x !in touched ensures Undisturbed(a, c, x) { UndisturbedTransitive(a, b, c, x); }
  }

  lemma UndisturbedTransitive(a: Db, b: Db, c: Db, x: Id)
    requires Undisturbed(a, b, x) && Undisturbed(b, c, x)
    ensures Undisturbed(a, c, x)
  {
  }
}
