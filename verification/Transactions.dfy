/** Transactions interleaved statement by statement, under row locks. */
module Transactions {
  import opened Basics
  import opened JsonValues
  import opened ExternalRefs
  import opened DocumentPaths
  import opened Tables
  import opened Statements
  import opened CatalogStatements
  import opened Requests

  // ---------- the machine ----------

  /** A transaction, after the statements that come before its first lock. */
  datatype Task =
    | Create(family: Id, document: Object, source: string, refs: seq<Ref>)
    | Update(entity: Id, document: Object, source: string, refs: seq<Ref>)
    | Resolve(entity: Id, conflict: Id, path: string, value: Json)
    | Upgrade(entity: Id, choice: Choice)
    | Merge(from: Id, into: Id)
    | Publish(family: Id)
    | SaveDraft(family: Id, schema: Object, expected: Option<int>)
    | DeleteFamily(family: Id)

  /** What a transaction has read so far. */
  datatype Seen = Seen(documents: map<Id, Object>, refs: Option<set<Ref>>, next: Option<int>,
                       revision: Option<Id>, draft: Option<Draft>, key: Option<string>)

  /** A row that a statement which writes needs besides those it writes: the rows its foreign keys
      refer to, which it shares with others, and the rows a deletion reaches, which it does not. A
      deletion also looks at the rows that forbid it. */
  datatype Row = FamilyRow(family: Id) | RevisionRow(family: Id, revision: Id) | DraftRow(family: Id) | EntityRow(entity: Id)

  /** A transaction: the rows it has locked, in order, what it has read, and the further rows that
      its writing statements have claimed. */
  datatype Tx = Tx(task: Task, held: nat, seen: Seen, claims: set<Row>)

  datatype State = State(db: Db, txs: map<nat, Tx>)

  /** The rows a transaction locks, in the order in which it locks them. */
  function Locks(task: Task): seq<Id> {
    match task
    case Create(_, _, _, _) => []
    case Update(e, _, _, _) => [e]
    case Resolve(e, _, _, _) => [e]
    case Upgrade(e, _) => [e]
    case Merge(s, t) => if s < t then [s, t] else [t, s]
    case Publish(f) => [f]
    case SaveDraft(f, _, _) => [f]
    case DeleteFamily(_) => []
  }

  predicate OnCatalog(task: Task) {
    task.Publish? || task.SaveDraft? || task.DeleteFamily?
  }

  /** The row that the new version or revision belongs to. */
  function Subject(task: Task): Id {
    match task
    case Create(f, _, _, _) => f
    case Update(e, _, _, _) => e
    case Resolve(e, _, _, _) => e
    case Upgrade(e, _) => e
    case Merge(_, t) => t
    case Publish(f) => f
    case SaveDraft(f, _, _) => f
    case DeleteFamily(f) => f
  }

  predicate RowExists(db: Db, task: Task, x: Id) {
    if OnCatalog(task) then x in db.drafts else x in db.entities
  }

  function NothingSeen(): Seen {
    Seen(map[], None, None, None, None, None)
  }

  predicate HasLocked(tx: Tx, x: Id) {
    tx.held <= |Locks(tx.task)| && x in Locks(tx.task)[..tx.held]
  }

  predicate AllLocked(tx: Tx) {
    tx.held == |Locks(tx.task)|
  }

  /** Another transaction has locked the row, or has claimed it in order to delete it. */
  predicate Blocks(other: Tx, task: Task, x: Id) {
    HasLocked(other, x) || (OnCatalog(task) && DraftRow(x) in other.claims)
  }

  ghost predicate LockedByOther(s: State, i: nat, x: Id)
    requires i in s.txs
  {
    exists j :: j in s.txs && j != i && Blocks(s.txs[j], s.txs[i].task, x)
  }

  // ---------- claims ----------

  /** The rows that the next writing statement still needs, in the order in which foreign keys and
      cascades are worked off. A deletion of a family that has entities gets no further than these:
      they forbid it. */
  ghost function Wants(db: Db, tx: Tx): set<Row> {
    match tx.task
    case Create(f, _, _, _) =>
      if tx.seen.revision.None? then {}
      else if FamilyRow(f) !in tx.claims then {FamilyRow(f)}
      else {RevisionRow(f, tx.seen.revision.value)} - tx.claims
    case Upgrade(e, _) =>
      if IsMoving(db, tx) then {RevisionRow(db.entities[e].family, tx.seen.revision.value)} - tx.claims else {}
    case Publish(f) =>
      if tx.seen.draft.Some? && tx.seen.next.Some? then {FamilyRow(f)} - tx.claims else {}
    case DeleteFamily(f) =>
      if FamilyRow(f) !in tx.claims then {FamilyRow(f)}
      else if RevisionsLeft(db, tx, f) != {} then RevisionsLeft(db, tx, f)
      else if HasEntities(db, f) then EntityRows(db, f)
      else {DraftRow(f)} - tx.claims
    case _ => {}
  }

  /** An upgrade that has read all it needs and changes the binding. */
  predicate IsMoving(db: Db, tx: Tx) {
    tx.task.Upgrade? && tx.task.entity in db.entities && tx.task.entity in tx.seen.documents &&
    tx.seen.next.Some? && tx.seen.revision.Some? && db.entities[tx.task.entity].revision != tx.seen.revision.value
  }

  ghost function RevisionsLeft(db: Db, tx: Tx, f: Id): set<Row> {
    (set r | r in db.revisions && db.revisions[r].family == f :: RevisionRow(f, r)) - tx.claims
  }

  ghost function EntityRows(db: Db, f: Id): set<Row> {
    set e | e in db.entities && db.entities[e].family == f :: EntityRow(e)
  }

  /** Another transaction keeps the row from this one. Foreign keys share a row with each other. */
  predicate Keeps(other: Tx, row: Row, deleting: bool) {
    match row
    case EntityRow(e) => !OnCatalog(other.task) && HasLocked(other, e)
    case DraftRow(f) => OnCatalog(other.task) && (HasLocked(other, f) || DraftRow(f) in other.claims)
    case _ => row in other.claims && (deleting || other.task.DeleteFamily?)
  }

  ghost predicate KeptByOther(s: State, i: nat, row: Row, deleting: bool) {
    exists j :: j in s.txs && j != i && Keeps(s.txs[j], row, deleting)
  }

  /** A revision that `choice` may mean now. */
  predicate Chosen(db: Db, f: Id, choice: Choice, r: Id) {
    r in db.revisions && db.revisions[r].family == f &&
    match choice
    case ById(id) => r == id
    case ByNumber(no) => db.revisions[r].no == no
    case Latest => db.revisions[r].no == MaxRevision(db.revisions, f)
  }

  /** The number of the next version, or of the next revision. */
  function NextNumber(db: Db, task: Task): int {
    if OnCatalog(task) then MaxRevision(db.revisions, Subject(task)) + 1 else MaxVersion(db.versions, Subject(task)) + 1
  }

  /** The checks a transaction makes before its first lock. */
  ghost predicate MayBegin(db: Db, rules: SchemaRules, task: Task) {
    match task
    case Create(f, document, _, refs) =>
      ValidRefs(refs) && exists r :: Chosen(db, f, Latest, r) && rules.accepts(db.revisions[r].schema, document)
    case Update(_, _, _, refs) => ValidRefs(refs)
    case Resolve(e, c, path, _) =>
      c in db.conflicts && db.conflicts[c].status.Open? && Concerns(db.conflicts[c], e, path)
    case Upgrade(_, _) => true
    case Merge(from, into) => from != into
    case Publish(_) => true
    case SaveDraft(_, _, _) => true
    case DeleteFamily(f) => !HasEntities(db, f) && RevisionNumbers(db.revisions, f) == {}
  }

  predicate Concerns(conflict: Conflict, e: Id, path: string) {
    conflict.entity == e && JoinNsField(conflict.candidate.ns, conflict.candidate.fieldKey) == path
  }

  /** The family whose key the event will carry is there. */
  predicate HasKey(db: Db, task: Task) {
    !OnCatalog(task) &&
    (if task.Create? then task.family in db.families
     else Subject(task) in db.entities && db.entities[Subject(task)].family in db.families)
  }

  /** The type key of the subject's family, read without a lock on the family. */
  function KeyNow(db: Db, task: Task): string
    requires HasKey(db, task)
  {
    TypeKey(db.families[if task.Create? then task.family else db.entities[Subject(task)].family])
  }

  /** One more query: a document of a locked entity, its references, the next number, the revision
      to bind to, the draft, or the type key for the event. */
  ghost predicate Looks(db: Db, task: Task, claims: set<Row>, seen: Seen, seen': Seen) {
    || (exists e :: e in Locks(task) && !OnCatalog(task) && HasDocument(db, e) &&
          seen' == seen.(documents := seen.documents[e := Document(db, e)]))
    || (task.Update? && seen' == seen.(refs := Some(RefsOf(db.mappings, task.entity))))
    || (!task.Create? && !task.DeleteFamily? && seen' == seen.(next := Some(NextNumber(db, task))))
    || (task.Upgrade? && claims == {} && task.entity in db.entities &&
          exists r :: Chosen(db, db.entities[task.entity].family, task.choice, r) && seen' == seen.(revision := Some(r)))
    || (task.Create? && claims == {} && exists r :: Chosen(db, task.family, Latest, r) && seen' == seen.(revision := Some(r)))
    || ((task.Publish? || task.SaveDraft?) && task.family in db.drafts &&
          seen' == seen.(draft := Some(db.drafts[task.family])))
    || (HasKey(db, task) && seen' == seen.(key := Some(KeyNow(db, task))))
  }

  /** The statements that write, and the constraints they meet. */
  ghost predicate Writes(db: Db, rules: SchemaRules, task: Task, seen: Seen, db': Db) {
    match task
    case Create(f, document, source, refs) =>
      seen.revision.Some? && seen.key.Some? &&
      exists e :: CreateWrites(db, e, f, seen.revision.value, document, source, refs, seen.key.value, db')
    case Update(e, document, source, refs) =>
      e in seen.documents && seen.refs.Some? &&
      UpdateWrites(db, e, document, source, refs, seen.documents[e], seen.refs.value, seen.next, seen.key, db')
    case Resolve(e, c, path, value) =>
      e in seen.documents && seen.next.Some? && seen.key.Some? &&
      ResolveWrites(db, c, e, path, value, seen.documents[e], seen.next.value, seen.key.value, db')
    case Upgrade(e, _) =>
      seen.revision.Some? && e in seen.documents &&
      UpgradeWrites(db, e, seen.revision.value, rules, seen.documents[e], seen.next, seen.key, db')
    case Merge(s, t) =>
      s in seen.documents && t in seen.documents && seen.next.Some? && seen.key.Some? &&
      MergeWrites(db, s, t, seen.documents[s], seen.documents[t], seen.next.value, seen.key.value, db')
    case Publish(f) =>
      seen.draft.Some? && seen.next.Some? && rules.publishable(seen.draft.value.schema) &&
      exists r :: PublishWrites(db, f, r, seen.draft.value.schema, seen.next.value, db')
    case SaveDraft(f, schema, expected) =>
      seen.draft.Some? && (expected.Some? ==> expected.value == seen.draft.value.version) &&
      db' == SetDraft(db, f, Draft(schema, seen.draft.value.version + 1))
    case DeleteFamily(f) =>
      f in db.families && !HasEntities(db, f) && db' == RemoveFamily(db, f)
  }

  ghost predicate PublishWrites(db: Db, f: Id, r: Id, schema: Object, no: int, db': Db) {
    r !in db.issued && f in db.families && NumberFree(db.revisions, f, no) &&
    db' == AddRevision(db, r, Revision(f, no, schema))
  }

  ghost predicate Begins(s: State, rules: SchemaRules, i: nat, task: Task, s': State) {
    i !in s.txs && MayBegin(s.db, rules, task) && s' == s.(txs := s.txs[i := Tx(task, 0, NothingSeen(), {})])
  }

  ghost predicate Acquires(s: State, i: nat, s': State) {
    i in s.txs &&
    var tx := s.txs[i];
    tx.held < |Locks(tx.task)| && RowExists(s.db, tx.task, Locks(tx.task)[tx.held]) &&
    !LockedByOther(s, i, Locks(tx.task)[tx.held]) &&
    s' == s.(txs := s.txs[i := tx.(held := tx.held + 1)])
  }

  ghost predicate Reads(s: State, i: nat, s': State) {
    i in s.txs &&
    var tx := s.txs[i];
    AllLocked(tx) && exists seen' :: Looks(s.db, tx.task, tx.claims, tx.seen, seen') && s' == s.(txs := s.txs[i := tx.(seen := seen')])
  }

  /** A writing statement claims one of the rows it needs. An entity that forbids a deletion is
      never claimed: once its row is free the deletion fails. */
  ghost predicate Claims(s: State, i: nat, s': State) {
    i in s.txs &&
    var tx := s.txs[i];
    AllLocked(tx) &&
    exists row ::
      row in Wants(s.db, tx) && !row.EntityRow? && (row.FamilyRow? ==> row.family in s.db.families) &&
      !KeptByOther(s, i, row, tx.task.DeleteFamily?) &&
      s' == s.(txs := s.txs[i := tx.(claims := tx.claims + {row})])
  }

  ghost predicate Commits(s: State, rules: SchemaRules, i: nat, s': State) {
    i in s.txs &&
    var tx := s.txs[i];
    AllLocked(tx) && Wants(s.db, tx) == {} && Writes(s.db, rules, tx.task, tx.seen, s'.db) &&
    s'.txs == s.txs - {i}
  }

  ghost predicate Aborts(s: State, i: nat, s': State) {
    i in s.txs && s' == s.(txs := s.txs - {i})
  }

  /** A transaction of one statement. */
  ghost predicate SingleStatement(s: State, s': State) {
    s'.txs == s.txs && (
      || (exists e :: e in s.db.entities && !LockedByAny(s, e) && s'.db == RemoveEntity(s.db, e))
      || (exists f, family, schema :: f !in s.db.issued && KeyFree(s.db.families, f, family) && s'.db == AddFamily(s.db, f, family, schema))
      || (exists f, family :: f in s.db.families && KeyFree(s.db.families, f, family) && !ClaimedByAny(s, FamilyRow(f)) &&
           s'.db == RenameFamily(s.db, f, family)))
  }

  ghost predicate ClaimedByAny(s: State, row: Row) {
    exists j :: j in s.txs && row in s.txs[j].claims
  }

  ghost predicate LockedByAny(s: State, x: Id) {
    exists j :: j in s.txs && HasLocked(s.txs[j], x)
  }

  ghost predicate Next(s: State, rules: SchemaRules, s': State) {
    || (exists i, task :: Begins(s, rules, i, task, s'))
    || (exists i :: Acquires(s, i, s'))
    || (exists i :: Reads(s, i, s'))
    || (exists i :: Claims(s, i, s'))
    || (exists i :: Commits(s, rules, i, s'))
    || (exists i :: Aborts(s, i, s'))
    || SingleStatement(s, s')
  }

  ghost predicate IsRun(run: seq<State>, rules: SchemaRules) {
    run != [] && run[0] == State(EmptyDb(), map[]) &&
    forall k :: 0 <= k < |run| - 1 ==> Next(run[k], rules, run[k + 1])
  }

  // ---------- what every state keeps ----------

  /** What a transaction has read is still so. */
  ghost predicate SeenHolds(db: Db, tx: Tx) {
    var (task, seen) := (tx.task, tx.seen);
    (forall e :: e in seen.documents ==>
      e in Locks(task) && !OnCatalog(task) && HasDocument(db, e) && Document(db, e) == seen.documents[e]) &&
    (seen.refs.Some? ==> task.Update? && seen.refs.value == RefsOf(db.mappings, task.entity)) &&
    (seen.next.Some? ==> !task.Create? && !task.DeleteFamily? && seen.next.value == NextNumber(db, task)) &&
    (seen.revision.Some? ==> task.Create? || task.Upgrade?) &&
    (seen.revision.Some? && task.Upgrade? ==> task.entity in db.entities && Revises(db, seen.revision.value, db.entities[task.entity].family)) &&
    (seen.draft.Some? ==> (task.Publish? || task.SaveDraft?) && task.family in db.drafts && db.drafts[task.family] == seen.draft.value)
  }

  ghost predicate LocksHeld(db: Db, tx: Tx) {
    tx.held <= |Locks(tx.task)| && forall x :: x in Locks(tx.task)[..tx.held] ==> RowExists(db, tx.task, x)
  }

  /** The conflict that a transaction resolves lives as long as its entity. */
  ghost predicate ConflictStands(db: Db, task: Task) {
    task.Resolve? ==>
      task.entity in db.issued &&
      (task.entity in db.entities ==> task.conflict in db.conflicts && Concerns(db.conflicts[task.conflict], task.entity, task.path))
  }

  predicate WellFormedTask(task: Task) {
    task.Merge? ==> task.from != task.into
  }

  /** What a transaction has claimed is what its statements need, in their order. */
  ghost predicate ClaimsFit(db: Db, tx: Tx) {
    match tx.task
    case Create(f, _, _, _) =>
      tx.claims == {} ||
      (tx.seen.revision.Some? && FamilyRow(f) in tx.claims && tx.claims <= {FamilyRow(f), RevisionRow(f, tx.seen.revision.value)})
    case Upgrade(e, _) =>
      tx.claims == {} || (IsMoving(db, tx) && tx.claims == {RevisionRow(db.entities[e].family, tx.seen.revision.value)})
    case Publish(f) => tx.claims <= {FamilyRow(f)}
    case DeleteFamily(f) =>
      tx.claims == {} || (FamilyRow(f) in tx.claims && forall row :: row in tx.claims ==> !row.EntityRow? && row.family == f)
    case _ => tx.claims == {}
  }

  ghost predicate TxSound(db: Db, tx: Tx) {
    LocksHeld(db, tx) && WellFormedTask(tx.task) && ConflictStands(db, tx.task) &&
    (AllLocked(tx) || (tx.seen == NothingSeen() && tx.claims == {})) && SeenHolds(db, tx) && ClaimsFit(db, tx)
  }

  ghost predicate Exclusive(s: State) {
    forall i, j, x :: i in s.txs && j in s.txs && HasLocked(s.txs[i], x) && HasLocked(s.txs[j], x) ==> i == j
  }

  /** No transaction keeps from another a row that it has claimed. */
  ghost predicate ClaimsRespected(s: State) {
    forall i, j, row :: i in s.txs && j in s.txs && i != j && row in s.txs[i].claims ==>
      !Keeps(s.txs[j], row, s.txs[i].task.DeleteFamily?)
  }

  ghost predicate Inv(s: State) {
    Sound(s.db) && Exclusive(s) && ClaimsRespected(s) && forall i :: i in s.txs ==> TxSound(s.db, s.txs[i])
  }

  // ---------- a transaction is not disturbed by the others ----------

  lemma TxKept(db: Db, db': Db, tx: Tx, touched: set<Id>)
    requires Sound(db) && Sound(db') && Changes(db, db', touched)
    requires TxSound(db, tx) && forall x :: HasLocked(tx, x) ==> x !in touched
    ensures TxSound(db', tx)
  {
    hide Sound, Changes, SeenHolds, LocksHeld, ConflictStands, Locks, ClaimsFit;
    LocksKept(db, db', tx, touched);
    ConflictKept(db, db', tx.task, touched);
    if AllLocked(tx) {
      assert Locks(tx.task)[..tx.held] == Locks(tx.task);
      SeenKept(db, db', tx, touched);
      ClaimsKept(db, db', tx, touched);
    } else {
      NothingClaimed(db', tx);
      SeenNothing(db', tx);
    }
  }

  lemma SeenNothing(db: Db, tx: Tx)
    requires tx.seen == NothingSeen()
    ensures SeenHolds(db, tx)
  {
  }

  lemma NothingClaimed(db: Db, tx: Tx)
    requires tx.claims == {}
    ensures ClaimsFit(db, tx)
  {
  }

  lemma ClaimsKept(db: Db, db': Db, tx: Tx, touched: set<Id>)
    requires Sound(db) && Changes(db, db', touched) && ClaimsFit(db, tx) && LocksHeld(db, tx) && AllLocked(tx)
    requires forall x :: x in Locks(tx.task) ==> x !in touched
    ensures ClaimsFit(db', tx)
  {
    hide CatalogSound, BindingsSound, VersionsSound, EventsSound, HistoriesSound, MappingsSound, ConflictsSound, UpToDate, Evolves;
    if tx.task.Upgrade? {
      assert Locks(tx.task)[..tx.held] == Locks(tx.task);
      assert tx.task.entity in Locks(tx.task) && tx.task.entity in db.issued;
      assert Undisturbed(db, db', tx.task.entity);
    }
  }

  lemma LocksKept(db: Db, db': Db, tx: Tx, touched: set<Id>)
    requires Sound(db) && Changes(db, db', touched)
    requires LocksHeld(db, tx) && forall x :: HasLocked(tx, x) ==> x !in touched
    ensures LocksHeld(db', tx)
  {
    hide Locks, BindingsSound, VersionsSound, EventsSound, HistoriesSound, MappingsSound, ConflictsSound, UpToDate, RevisionsNumbered, OneRevisionPerNumber, Evolves;
    forall x | x in Locks(tx.task)[..tx.held] ensures RowExists(db', tx.task, x) {
      assert HasLocked(tx, x);
      assert x in db.issued;
      assert Undisturbed(db, db', x);
    }
  }

  lemma ConflictKept(db: Db, db': Db, task: Task, touched: set<Id>)
    requires Sound(db) && Changes(db, db', touched) && ConflictStands(db, task)
    ensures ConflictStands(db', task)
  {
    hide Consistent, UpToDate, Undisturbed, VersionsEvolve, RevisionsEvolve, JoinNsField;
  }

  lemma SeenKept(db: Db, db': Db, tx: Tx, touched: set<Id>)
    requires Sound(db) && Sound(db') && Changes(db, db', touched)
    requires SeenHolds(db, tx) && LocksHeld(db, tx) && AllLocked(tx)
    requires forall x :: x in Locks(tx.task) ==> x !in touched
    ensures SeenHolds(db', tx)
  {
    hide Sound, Changes, Document, HasDocument, NextNumber, RefsOf, Revises, RowExists;
    var (task, seen) := (tx.task, tx.seen);
    assert Locks(task)[..tx.held] == Locks(task);
    forall x | x in Locks(task) ensures RowExists(db, task, x) {}
    forall e | e in seen.documents ensures HasDocument(db', e) && Document(db', e) == seen.documents[e] {
      DocumentKept(db, db', task, e, touched);
    }
    if !task.Create? && !task.DeleteFamily? {
      assert Subject(task) in Locks(task);
      NextNumberKept(db, db', task, touched);
    }
    if task.Update? { RefsKept(db, db', task, touched); }
    if task.Upgrade? && seen.revision.Some? { RevisionKept(db, db', task, seen.revision.value, touched); }
    if task.Publish? || task.SaveDraft? { DraftKept(db, db', task, touched); }
  }

  lemma DocumentKept(db: Db, db': Db, task: Task, e: Id, touched: set<Id>)
    requires Sound(db) && Changes(db, db', touched) && e !in touched
    requires !OnCatalog(task) && RowExists(db, task, e) && HasDocument(db, e)
    ensures HasDocument(db', e) && Document(db', e) == Document(db, e)
  {
    hide CatalogSound, BindingsSound, EventsSound, HistoriesSound, MappingsSound, ConflictsSound, UpToDate, Numbered, MaxVersion, RevisionsEvolve, ConflictsEvolve;
    assert e in db.issued;
    assert Undisturbed(db, db', e);
    assert Numbered(db.versions, e);
    MaxVersionSame(db.versions, db'.versions, e);
  }

  lemma NextNumberKept(db: Db, db': Db, task: Task, touched: set<Id>)
    requires Sound(db) && Changes(db, db', touched)
    requires RowExists(db, task, Subject(task)) && Subject(task) !in touched
    ensures NextNumber(db', task) == NextNumber(db, task)
  {
    hide BindingsSound, EventsSound, HistoriesSound, MappingsSound, ConflictsSound, UpToDate, Numbered, MaxVersion, ConflictsEvolve, RevisionNumbers, RevisionsNumbered, OneRevisionPerNumber;
    var x := Subject(task);
    assert x in db.issued;
    assert Undisturbed(db, db', x);
    if OnCatalog(task) {
      SameRevisionNumbers(db.revisions, db'.revisions, x);
    } else {
      assert Numbered(db.versions, x);
      MaxVersionSame(db.versions, db'.versions, x);
    }
  }

  lemma RefsKept(db: Db, db': Db, task: Task, touched: set<Id>)
    requires Sound(db) && Changes(db, db', touched)
    requires task.Update? && RowExists(db, task, task.entity) && task.entity !in touched
    ensures RefsOf(db'.mappings, task.entity) == RefsOf(db.mappings, task.entity)
  {
    hide CatalogSound, BindingsSound, VersionsSound, EventsSound, HistoriesSound, MappingsSound, ConflictsSound, UpToDate, Evolves;
    assert task.entity in db.issued;
    assert Undisturbed(db, db', task.entity);
  }

  lemma RevisionKept(db: Db, db': Db, task: Task, r: Id, touched: set<Id>)
    requires Sound(db) && Sound(db') && Changes(db, db', touched)
    requires task.Upgrade? && RowExists(db, task, task.entity) && task.entity !in touched
    requires Revises(db, r, db.entities[task.entity].family)
    ensures task.entity in db'.entities && Revises(db', r, db'.entities[task.entity].family)
  {
    hide CatalogSound, VersionsSound, EventsSound, HistoriesSound, MappingsSound, ConflictsSound, UpToDate, VersionsEvolve, ConflictsEvolve;
    assert task.entity in db.issued;
    assert Undisturbed(db, db', task.entity);
  }

  lemma DraftKept(db: Db, db': Db, task: Task, touched: set<Id>)
    requires Sound(db) && Changes(db, db', touched)
    requires (task.Publish? || task.SaveDraft?) && RowExists(db, task, task.family) && task.family !in touched
    ensures task.family in db'.drafts && db'.drafts[task.family] == db.drafts[task.family]
  {
    hide BindingsSound, VersionsSound, EventsSound, HistoriesSound, MappingsSound, ConflictsSound, UpToDate, RevisionsNumbered, OneRevisionPerNumber, Evolves;
    assert task.family in db.issued;
    assert Undisturbed(db, db', task.family);
  }

  // ---------- every step keeps the invariant ----------

  function Touched(task: Task): set<Id> {
    if task.DeleteFamily? then {task.family} else set x | x in Locks(task)
  }

  /** What a transaction writes on the strength of what it has read leads to a sound state, in
      which only its own rows are disturbed. */
  lemma WritesSound(db: Db, rules: SchemaRules, tx: Tx, db': Db)
    requires Sound(db) && TxSound(db, tx) && AllLocked(tx) && Writes(db, rules, tx.task, tx.seen, db')
    ensures Sound(db') && Changes(db, db', Touched(tx.task))
  {
    hide Sound, Changes, SeenHolds, Writes, ConflictStands, RowExists;
    assert Locks(tx.task)[..tx.held] == Locks(tx.task);
    if OnCatalog(tx.task) {
      SeenOnly(db, tx, Tx(tx.task, |Locks(tx.task)|, tx.seen, {}));
      CatalogWritesSound(db, rules, tx.task, tx.seen, db');
    } else if tx.task.Create? {
      CreateWritesSound(db, rules, tx.task, tx.seen, db');
    } else {
      EntityWritesSound(db, rules, tx, db');
    }
  }

  lemma EntityWritesSound(db: Db, rules: SchemaRules, tx: Tx, db': Db)
    requires Sound(db) && SeenHolds(db, tx) && Writes(db, rules, tx.task, tx.seen, db')
    requires !OnCatalog(tx.task) && !tx.task.Create? && WellFormedTask(tx.task)
    requires forall x :: x in Locks(tx.task) ==> RowExists(db, tx.task, x)
    ensures Sound(db') && Changes(db, db', Touched(tx.task))
  {
    hide Sound, Changes, RefsOf, MaxVersion, HasDocument, Document, UpdateWrites, ResolveWrites, UpgradeWrites, MergeWrites;
    var seen := tx.seen;
    match tx.task
    case Update(e, document, source, refs) =>
      UpdateSound(db, e, document, source, refs, seen.documents[e], seen.refs.value, seen.next, seen.key, db');
      assert Touched(tx.task) == {e};
    case Resolve(e, c, path, value) =>
      ResolveSound(db, c, e, path, value, seen.documents[e], seen.next.value, seen.key.value, db');
      assert Touched(tx.task) == {e};
    case Upgrade(e, _) =>
      UpgradeSound(db, e, seen.revision.value, rules, seen.documents[e], seen.next, seen.key, db');
      assert Touched(tx.task) == {e};
    case Merge(s, t) =>
      MergeSound(db, s, t, seen.documents[s], seen.documents[t], seen.next.value, seen.key.value, db');
      assert Touched(tx.task) == {s, t};
  }

  lemma CreateWritesSound(db: Db, rules: SchemaRules, task: Task, seen: Seen, db': Db)
    requires Sound(db) && task.Create? && Writes(db, rules, task, seen, db')
    ensures Sound(db') && Changes(db, db', Touched(task))
  {
    hide Sound, Changes, RefsOf, MaxVersion, CreateWrites;
    var Create(f, document, source, refs) := task;
    var e :| CreateWrites(db, e, f, seen.revision.value, document, source, refs, seen.key.value, db');
    CreateSound(db, e, f, seen.revision.value, document, source, refs, seen.key.value, db');
    CreatedIsNew(db, e, f, seen.revision.value, document, source, refs, seen.key.value, db');
    assert Touched(task) == {};
  }

  lemma CatalogWritesSound(db: Db, rules: SchemaRules, task: Task, seen: Seen, db': Db)
    requires Sound(db) && OnCatalog(task) && SeenHolds(db, Tx(task, |Locks(task)|, seen, {})) && Writes(db, rules, task, seen, db')
    ensures Sound(db') && Changes(db, db', Touched(task))
  {
    hide Consistent, UpToDate, Changes, MaxRevision, RefsOf;
    match task
    case Publish(f) =>
      var r :| PublishWrites(db, f, r, seen.draft.value.schema, seen.next.value, db');
      AddRevisionSound(db, r, f, seen.draft.value.schema);
      assert Touched(task) == {f};
    case SaveDraft(f, schema, _) =>
      SetDraftSound(db, f, Draft(schema, seen.draft.value.version + 1));
      assert Touched(task) == {f};
    case DeleteFamily(f) =>
      RemoveFamilySound(db, f);
  }

  lemma CreatedIsNew(db: Db, e: Id, f: Id, r: Id, document: Object, source: string, refs: seq<Ref>, key: string, db': Db)
    requires CreateWrites(db, e, f, r, document, source, refs, key, db') && Changes(db, db', {e})
    ensures Changes(db, db', {})
  {
    hide Created, Evolves, Undisturbed, RefsFree;
  }

  lemma BeginsInv(s: State, rules: SchemaRules, i: nat, task: Task, s': State)
    requires Inv(s) && Begins(s, rules, i, task, s')
    ensures Inv(s')
  {
    hide Sound, Locks, JoinNsField, Chosen, Keeps;
    var tx := Tx(task, 0, NothingSeen(), {});
    ConflictToResolve(s.db, rules, task);
    NewcomerKeepsNothing(tx);
    forall j, k, x | j in s'.txs && k in s'.txs && HasLocked(s'.txs[j], x) && HasLocked(s'.txs[k], x) ensures j == k {
      assert j != i && k != i;
      assert HasLocked(s.txs[j], x) && HasLocked(s.txs[k], x);
    }
    forall j | j in s'.txs ensures TxSound(s'.db, s'.txs[j]) {
      if j != i { assert TxSound(s.db, s.txs[j]); }
    }
  }

  lemma NewcomerKeepsNothing(tx: Tx)
    requires tx.held == 0 && tx.claims == {}
    ensures forall row, deleting :: !Keeps(tx, row, deleting)
  {
  }

  lemma ConflictToResolve(db: Db, rules: SchemaRules, task: Task)
    requires Sound(db) && MayBegin(db, rules, task)
    ensures ConflictStands(db, task)
  {
  }

  lemma AcquiresInv(s: State, i: nat, s': State)
    requires Inv(s) && Acquires(s, i, s')
    ensures Inv(s')
  {
    hide Sound, Locks, ConflictStands, RowExists, SeenHolds, Keeps, Blocks;
    var tx, tx' := s.txs[i], s'.txs[i];
    var row := Locks(tx.task)[tx.held];
    LockingKeepsClaims(s, i, s');
    assert TxSound(s.db, tx);
    assert Locks(tx.task)[..tx'.held] == Locks(tx.task)[..tx.held] + [row];
    SeenNothing(s.db, tx');
    NothingClaimed(s.db, tx');
    NobodyElse(s, i, row);
    forall j, x | j in s'.txs && HasLocked(s'.txs[j], x) ensures HasLocked(s.txs[j], x) || (j == i && x == row) {}
    forall j | j in s'.txs ensures TxSound(s'.db, s'.txs[j]) {
      if j != i { assert TxSound(s.db, s.txs[j]); }
    }
  }

  lemma NobodyElse(s: State, i: nat, x: Id)
    requires i in s.txs && !LockedByOther(s, i, x)
    ensures forall j :: j in s.txs && j != i ==>
      !HasLocked(s.txs[j], x) && (OnCatalog(s.txs[i].task) ==> DraftRow(x) !in s.txs[j].claims)
  {
    hide HasLocked;
    forall j | j in s.txs && j != i ensures !Blocks(s.txs[j], s.txs[i].task, x) {}
  }

  lemma LockingKeepsClaims(s: State, i: nat, s': State)
    requires ClaimsRespected(s) && Acquires(s, i, s') && s.txs[i].claims == {}
    requires forall j :: j in s.txs ==> TxSound(s.db, s.txs[j])
    ensures ClaimsRespected(s')
  {
    hide RowExists, Locks, LocksHeld, ConflictStands, SeenHolds, ClaimsFit, WellFormedTask;
    var tx := s.txs[i];
    var x := Locks(tx.task)[tx.held];
    NobodyElse(s, i, x);
    assert Locks(tx.task)[..tx.held + 1] == Locks(tx.task)[..tx.held] + [x];
    forall j, k, row | j in s'.txs && k in s'.txs && j != k && row in s'.txs[j].claims
      ensures !Keeps(s'.txs[k], row, s'.txs[j].task.DeleteFamily?)
    {
      assert j != i && row in s.txs[j].claims && !Keeps(s.txs[k], row, s.txs[j].task.DeleteFamily?);
      assert TxSound(s.db, s.txs[j]);
      ClaimersOfDrafts(s.db, s.txs[j], row);
    }
  }

  lemma ReadsInv(s: State, i: nat, s': State)
    requires Inv(s) && Reads(s, i, s')
    ensures Inv(s')
  {
    hide Sound, Locks, ConflictStands, RowExists, SeenHolds, Looks, ClaimsFit, Keeps;
    var tx := s.txs[i];
    assert TxSound(s.db, tx);
    LookHolds(s.db, tx, s'.txs[i].seen);
    LookFits(s.db, tx, s'.txs[i].seen);
    SameClaims(s, i, s');
    forall j, k, x | j in s'.txs && k in s'.txs && HasLocked(s'.txs[j], x) && HasLocked(s'.txs[k], x) ensures j == k {
      assert HasLocked(s.txs[j], x) && HasLocked(s.txs[k], x);
    }
    forall j | j in s'.txs ensures TxSound(s'.db, s'.txs[j]) {
      if j != i { assert TxSound(s.db, s.txs[j]); }
    }
  }

  lemma SameClaims(s: State, i: nat, s': State)
    requires ClaimsRespected(s) && i in s.txs && s'.txs.Keys == s.txs.Keys && (forall j :: j in s.txs && j != i ==> s'.txs[j] == s.txs[j])
    requires s'.txs[i].task == s.txs[i].task && s'.txs[i].held == s.txs[i].held && s'.txs[i].claims == s.txs[i].claims
    ensures ClaimsRespected(s')
  {
    forall j, k, row | j in s'.txs && k in s'.txs && j != k && row in s'.txs[j].claims
      ensures !Keeps(s'.txs[k], row, s'.txs[j].task.DeleteFamily?)
    {
      assert !Keeps(s.txs[k], row, s.txs[j].task.DeleteFamily?);
    }
  }

  lemma LookFits(db: Db, tx: Tx, seen': Seen)
    requires ClaimsFit(db, tx) && Looks(db, tx.task, tx.claims, tx.seen, seen')
    ensures ClaimsFit(db, tx.(seen := seen'))
  {
    hide HasDocument, Document, Chosen, RefsOf, NextNumber, KeyNow;
  }

  lemma LookHolds(db: Db, tx: Tx, seen': Seen)
    requires Sound(db) && SeenHolds(db, tx) && Looks(db, tx.task, tx.claims, tx.seen, seen')
    ensures SeenHolds(db, tx.(seen := seen'))
  {
    hide VersionsSound, EventsSound, HistoriesSound, MappingsSound, ConflictsSound, CatalogSound, UpToDate, MaxVersion, MaxRevision, RefsOf, HasDocument, Document;
  }

  lemma ClaimsInv(s: State, i: nat, s': State)
    requires Inv(s) && Claims(s, i, s')
    ensures Inv(s')
  {
    hide Sound, Locks, ConflictStands, RowExists, SeenHolds, Wants, Keeps, ClaimsFit;
    var tx := s.txs[i];
    assert TxSound(s.db, tx);
    var row :| row in Wants(s.db, tx) && !row.EntityRow? && !KeptByOther(s, i, row, tx.task.DeleteFamily?) &&
      s' == s.(txs := s.txs[i := tx.(claims := tx.claims + {row})]);
    ClaimFits(s.db, tx, row);
    ClaimRespects(s, i, row, s');
    forall j, k, x | j in s'.txs && k in s'.txs && HasLocked(s'.txs[j], x) && HasLocked(s'.txs[k], x) ensures j == k {
      assert HasLocked(s.txs[j], x) && HasLocked(s.txs[k], x);
    }
    forall j | j in s'.txs ensures TxSound(s'.db, s'.txs[j]) {
      if j != i { assert TxSound(s.db, s.txs[j]); } else { SeenOnly(s.db, tx, s'.txs[i]); }
    }
  }

  lemma SeenOnly(db: Db, tx: Tx, tx': Tx)
    requires SeenHolds(db, tx) && tx'.task == tx.task && tx'.seen == tx.seen
    ensures SeenHolds(db, tx')
  {
  }

  lemma ClaimFits(db: Db, tx: Tx, row: Row)
    requires ClaimsFit(db, tx) && row in Wants(db, tx) && !row.EntityRow?
    ensures ClaimsFit(db, tx.(claims := tx.claims + {row}))
  {
  }

  lemma ClaimRespects(s: State, i: nat, row: Row, s': State)
    requires ClaimsRespected(s) && i in s.txs && TxSound(s.db, s.txs[i]) && row in Wants(s.db, s.txs[i])
    requires forall j :: j in s.txs ==> TxSound(s.db, s.txs[j])
    requires !row.EntityRow? && !KeptByOther(s, i, row, s.txs[i].task.DeleteFamily?)
    requires s' == s.(txs := s.txs[i := s.txs[i].(claims := s.txs[i].claims + {row})])
    ensures ClaimsRespected(s')
  {
    hide LocksHeld, ConflictStands, SeenHolds, Wants, ClaimsFit;
    forall j | j in s.txs && j != i ensures !Keeps(s.txs[j], row, s.txs[i].task.DeleteFamily?) {}
    forall j, k, r | j in s'.txs && k in s'.txs && j != k && r in s'.txs[j].claims
      ensures !Keeps(s'.txs[k], r, s'.txs[j].task.DeleteFamily?)
    {
      if j == i {
        assert r == row || r in s.txs[i].claims;
      } else {
        assert !Keeps(s.txs[k], r, s.txs[j].task.DeleteFamily?);
        if k == i && r == row { ClaimersOfDrafts(s.db, s.txs[j], r); }
      }
    }
  }

  lemma ClaimersOfDrafts(db: Db, tx: Tx, row: Row)
    requires ClaimsFit(db, tx) && row in tx.claims
    ensures row.DraftRow? ==> tx.task.DeleteFamily?
    ensures !row.EntityRow?
  {
  }

  lemma CommitsInv(s: State, rules: SchemaRules, i: nat, s': State)
    requires Inv(s) && Commits(s, rules, i, s')
    ensures Inv(s') && Changes(s.db, s'.db, Touched(s.txs[i].task))
  {
    hide Sound, Locks, Changes, TxSound, Writes, Wants, Keeps;
    var tx := s.txs[i];
    assert TxSound(s.db, tx);
    WritesSound(s.db, rules, tx, s'.db);
    forall j | j in s'.txs ensures TxSound(s'.db, s'.txs[j]) {
      forall x | x in Touched(tx.task) ensures !HasLocked(s.txs[j], x) {
        if tx.task.DeleteFamily? {
          NobodyLocksTheFamily(s, i, j, rules, s'.db);
        } else {
          assert Locks(tx.task)[..tx.held] == Locks(tx.task);
          assert HasLocked(tx, x);
        }
      }
      TxKept(s.db, s'.db, s.txs[j], Touched(tx.task));
    }
  }

  lemma EntitiesForbid(db: Db, f: Id)
    requires HasEntities(db, f)
    ensures EntityRows(db, f) != {}
  {
    var e :| e in db.entities && db.entities[e].family == f;
    assert EntityRow(e) in EntityRows(db, f);
  }

  /** A deletion of a family that wants nothing more has claimed the family, its revisions and its
      draft, and found no entity. */
  lemma ReadyToDelete(db: Db, tx: Tx)
    requires tx.task.DeleteFamily? && Wants(db, tx) == {}
    ensures FamilyRow(tx.task.family) in tx.claims && DraftRow(tx.task.family) in tx.claims && !HasEntities(db, tx.task.family)
  {
    var f := tx.task.family;
    assert FamilyRow(f) in tx.claims by { assert FamilyRow(f) in {FamilyRow(f)}; }
    assert RevisionsLeft(db, tx, f) == {};
    if HasEntities(db, f) { EntitiesForbid(db, f); }
    assert {DraftRow(f)} - tx.claims == {};
    assert DraftRow(f) !in {DraftRow(f)} - tx.claims;
  }

  /** A deletion that has claimed the draft finds nobody on it. */
  lemma NobodyLocksTheFamily(s: State, i: nat, j: nat, rules: SchemaRules, db': Db)
    requires Inv(s) && i in s.txs && j in s.txs && i != j && s.txs[i].task.DeleteFamily?
    requires Wants(s.db, s.txs[i]) == {} && Writes(s.db, rules, s.txs[i].task, s.txs[i].seen, db')
    ensures !HasLocked(s.txs[j], s.txs[i].task.family)
  {
    hide CatalogSound, BindingsSound, VersionsSound, EventsSound, HistoriesSound, MappingsSound, ConflictsSound, UpToDate, SeenHolds, ConflictStands, Exclusive, RemoveFamily, ClaimsFit;
    var f := s.txs[i].task.family;
    ReadyToDelete(s.db, s.txs[i]);
    assert !Keeps(s.txs[j], DraftRow(f), true);
    assert TxSound(s.db, s.txs[j]);
    assert f in s.db.families && f !in s.db.entities;
  }

  lemma AbortsInv(s: State, i: nat, s': State)
    requires Inv(s) && Aborts(s, i, s')
    ensures Inv(s')
  {
    hide Sound, HasLocked, TxSound, Keeps;
    forall j | j in s'.txs ensures j in s.txs && s'.txs[j] == s.txs[j] {}
    assert forall j :: j in s'.txs ==> TxSound(s'.db, s'.txs[j]);
    assert Exclusive(s');
    forall j, k, row | j in s'.txs && k in s'.txs && j != k && row in s'.txs[j].claims
      ensures !Keeps(s'.txs[k], row, s'.txs[j].task.DeleteFamily?)
    {
      assert row in s.txs[j].claims;
    }
    assert ClaimsRespected(s');
  }

  lemma SingleInv(s: State, s': State)
    requires Inv(s) && SingleStatement(s, s')
    ensures Inv(s') && exists touched :: Changes(s.db, s'.db, touched)
  {
    hide Sound, HasLocked, TxSound, RemoveEntity, AddFamily, RenameFamily, Changes, KeyFree, ClaimsRespected, Exclusive;
    SameTransactions(s, s');
    var touched: set<Id>;
    if e :| e in s.db.entities && !LockedByAny(s, e) && s'.db == RemoveEntity(s.db, e) {
      RemoveEntitySound(s.db, e);
      touched := {e};
    } else if f, family, schema :| f !in s.db.issued && KeyFree(s.db.families, f, family) && s'.db == AddFamily(s.db, f, family, schema) {
      AddFamilySound(s.db, f, family, schema);
      NewFamilyTouchesNothing(s.db, f, s'.db);
      touched := {};
    } else {
      var f, family :| f in s.db.families && KeyFree(s.db.families, f, family) && s'.db == RenameFamily(s.db, f, family);
      RenameFamilySound(s.db, f, family);
      touched := {};
    }
    forall j | j in s'.txs ensures TxSound(s'.db, s'.txs[j]) {
      TxKept(s.db, s'.db, s.txs[j], touched);
    }
  }

  lemma SameTransactions(s: State, s': State)
    requires s'.txs == s.txs && Exclusive(s) && ClaimsRespected(s)
    ensures Exclusive(s') && ClaimsRespected(s')
  {
    hide HasLocked, Keeps;
  }

  lemma NewFamilyTouchesNothing(db: Db, f: Id, db': Db)
    requires Changes(db, db', {f}) && f !in db.issued
    ensures Changes(db, db', {})
  {
  }

  lemma SameDb(s: State, s': State)
    requires s'.db == s.db
    ensures Evolves(s.db, s'.db)
  {
    NothingChanges(s.db);
  }

  lemma OnlyTransactionsChange(s: State, rules: SchemaRules, s': State)
    requires (exists i, task :: Begins(s, rules, i, task, s')) || (exists i :: Acquires(s, i, s') || Reads(s, i, s') || Claims(s, i, s') || Aborts(s, i, s'))
    ensures s'.db == s.db
  {
    hide MayBegin, Looks, LockedByOther, Wants, KeptByOther;
  }

  lemma StepInv(s: State, rules: SchemaRules, s': State)
    requires Inv(s) && Next(s, rules, s')
    ensures Inv(s') && Evolves(s.db, s'.db)
  {
    hide Inv, Begins, Acquires, Reads, Claims, Commits, Aborts, SingleStatement, Evolves;
    if i, task :| Begins(s, rules, i, task, s') {
      BeginsInv(s, rules, i, task, s');
    } else if i :| Acquires(s, i, s') {
      AcquiresInv(s, i, s');
    } else if i :| Reads(s, i, s') {
      ReadsInv(s, i, s');
    } else if i :| Claims(s, i, s') {
      ClaimsInv(s, i, s');
    } else if i :| Commits(s, rules, i, s') {
      CommitsInv(s, rules, i, s');
      return;
    } else if i :| Aborts(s, i, s') {
      AbortsInv(s, i, s');
    } else {
      SingleInv(s, s');
      return;
    }
    OnlyTransactionsChange(s, rules, s');
    SameDb(s, s');
  }
}
