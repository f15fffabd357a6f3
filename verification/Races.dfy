/** What interleaving can do that running one transaction after another cannot. */
module Races {
  import opened Basics
  import opened JsonValues
  import opened DocumentPaths
  import opened History
  import opened Tables
  import opened Statements
  import opened CatalogStatements
  import opened ProfileSteps
  import opened Requests
  import opened Deadlocks
  import T = Transactions
  import S = Service

  ghost predicate IsPath(path: seq<T.State>, rules: SchemaRules) {
    path != [] && forall k :: 0 <= k < |path| - 1 ==> T.Next(path[k], rules, path[k + 1])
  }

  function Last(path: seq<T.State>): T.State
    requires path != []
  {
    path[|path| - 1]
  }

  lemma PathJoin(a: seq<T.State>, b: seq<T.State>, rules: SchemaRules)
    requires a != [] && b != [] && IsPath(a, rules) && IsPath(b, rules) && Last(a) == b[0]
    ensures IsPath(a + b[1..], rules) && (a + b[1..])[0] == a[0] && Last(a + b[1..]) == Last(b)
  {
    hide T.Next;
    var path := a + b[1..];
    forall k | 0 <= k < |path| - 1 ensures T.Next(path[k], rules, path[k + 1]) {
      if k >= |a| - 1 { assert path[k] == b[k - |a| + 1] && path[k + 1] == b[k - |a| + 2]; }
    }
  }

  lemma ResolutionExists(doc: Object, path: string, value: Json) returns (out: Object)
    ensures ResolveOutcome(doc, path, value, out)
  {
    hide IsFlattened, IsUnflattened;
    var flat := FlattenedExists(SplitMeta(doc).0);
    var data := UnflattenedExists(flat[path := value]);
    out := WithMeta(data, SetAuthorityPath(SplitMeta(doc).1, path, MANUAL));
    assert ResolveOutcomeVia(doc, path, value, out, flat, data);
  }

  // ---------- the steps of one resolution ----------

  /** A resolution that has its lock and has read all it needs. */
  predicate HasRead(tx: T.Tx) {
    tx.task.Resolve? && T.AllLocked(tx) && tx.task.entity in tx.seen.documents && tx.seen.next.Some? && tx.seen.key.Some?
  }

  lemma Locking(s: T.State, rules: SchemaRules, i: nat, s': T.State)
    requires i in s.txs && s.txs[i].task.Resolve? && s.txs[i].held == 0
    requires s.txs[i].task.entity in s.db.entities && !T.LockedByOther(s, i, s.txs[i].task.entity)
    requires s' == s.(txs := s.txs[i := s.txs[i].(held := 1)])
    ensures T.Next(s, rules, s')
  {
    hide T.LockedByOther;
    assert T.Acquires(s, i, s');
  }

  lemma Reading(s: T.State, rules: SchemaRules, i: nat, seen: T.Seen, s': T.State)
    requires i in s.txs && s.txs[i].task.Resolve? && s.txs[i].held == 1
    requires T.Looks(s.db, s.txs[i].task, s.txs[i].claims, s.txs[i].seen, seen) && s' == s.(txs := s.txs[i := s.txs[i].(seen := seen)])
    ensures T.Next(s, rules, s')
  {
    hide T.Looks;
    assert T.Reads(s, i, s');
  }

  lemma BeforeResolving(s: T.State, i: nat)
    requires T.Inv(s) && i in s.txs && s.txs[i].task.Resolve? && s.txs[i].held == 0 && s.txs[i].task.entity in s.db.entities
    ensures s.txs[i].seen == T.NothingSeen() && s.txs[i].claims == {}
    ensures HasDocument(s.db, s.txs[i].task.entity) && Bound(s.db, s.txs[i].task.entity)
  {
    hide Sound, MaxVersion, T.SeenHolds, T.Exclusive, T.ClaimsRespected;
    assert T.TxSound(s.db, s.txs[i]);
    S.LiveHasDocument(s.db, s.txs[i].task.entity);
  }

  lemma PathKeepsInv(path: seq<T.State>, rules: SchemaRules)
    requires path != [] && IsPath(path, rules) && T.Inv(path[0])
    ensures T.Inv(Last(path))
    decreases |path|
  {
    hide T.Inv, T.Next;
    if |path| > 1 {
      T.StepInv(path[0], rules, path[1]);
      PathKeepsInv(path[1..], rules);
    }
  }

  /** A resolution whose entity nobody else has locked looks its document, the next number and the
      type key. */
  lemma ResolutionReads(s: T.State, rules: SchemaRules, i: nat) returns (path: seq<T.State>)
    requires T.Inv(s) && i in s.txs && s.txs[i].task.Resolve? && s.txs[i].held == 0
    requires s.txs[i].task.entity in s.db.entities && !T.LockedByOther(s, i, s.txs[i].task.entity)
    ensures path != [] && IsPath(path, rules) && path[0] == s && T.Inv(Last(path))
    ensures
      var s' := Last(path);
      s'.db == s.db && s'.txs.Keys == s.txs.Keys && (forall j :: j in s.txs && j != i ==> s'.txs[j] == s.txs[j]) &&
      HasRead(s'.txs[i]) && s'.txs[i].task == s.txs[i].task && s'.txs[i].seen.key == Some(S.KeyOf(s.db, s.txs[i].task.entity)) &&
      Bound(s.db, s.txs[i].task.entity)
  {
    hide Sound, MaxVersion, Document, HasDocument, T.Inv, T.Next, T.LockedByOther, T.Looks;
    BeforeResolving(s, i);
    var (tx, e) := (s.txs[i], s.txs[i].task.entity);
    var seen1 := tx.seen.(documents := tx.seen.documents[e := Document(s.db, e)]);
    var seen2 := seen1.(next := Some(MaxVersion(s.db.versions, e) + 1));
    var seen3 := seen2.(key := Some(S.KeyOf(s.db, e)));
    var s1, s2 := s.(txs := s.txs[i := tx.(held := 1)]), s.(txs := s.txs[i := tx.(held := 1, seen := seen1)]);
    var s3, s4 := s.(txs := s.txs[i := tx.(held := 1, seen := seen2)]), s.(txs := s.txs[i := tx.(held := 1, seen := seen3)]);
    ThreeLooks(s.db, tx.task, tx.seen, seen1, seen2, seen3);
    Locking(s, rules, i, s1);
    Reading(s1, rules, i, seen1, s2);
    Reading(s2, rules, i, seen2, s3);
    Reading(s3, rules, i, seen3, s4);
    path := [s, s1, s2, s3, s4];
    PathKeepsInv(path, rules);
  }

  lemma ThreeLooks(db: Db, task: T.Task, seen0: T.Seen, seen1: T.Seen, seen2: T.Seen, seen3: T.Seen)
    requires task.Resolve? && HasDocument(db, task.entity) && Bound(db, task.entity)
    requires seen1 == seen0.(documents := seen0.documents[task.entity := Document(db, task.entity)])
    requires seen2 == seen1.(next := Some(MaxVersion(db.versions, task.entity) + 1))
    requires seen3 == seen2.(key := Some(S.KeyOf(db, task.entity)))
    ensures T.Looks(db, task, {}, seen0, seen1) && T.Looks(db, task, {}, seen1, seen2) && T.Looks(db, task, {}, seen2, seen3)
  {
    hide MaxVersion, HasDocument, Document;
    assert task.entity in T.Locks(task);
  }

  /** A resolution that has read all it needs commits, whatever has become of the conflict and of
      the name of the family since. */
  lemma ResolutionCommits(s: T.State, rules: SchemaRules, i: nat) returns (s': T.State)
    requires T.Inv(s) && i in s.txs && HasRead(s.txs[i])
    ensures T.Next(s, rules, s') && T.Inv(s') && s'.txs == s.txs - {i} && s'.db.families == s.db.families
    ensures
      var (tx, db) := (s.txs[i], s'.db);
      var (e, c) := (tx.task.entity, tx.task.conflict);
      e in db.entities && e in s.db.entities && db.entities[e] == s.db.entities[e] &&
      MaxVersion(db.versions, e) == MaxVersion(s.db.versions, e) + 1 &&
      VersionKey(e, MaxVersion(db.versions, e)) in db.outbox &&
      db.outbox[VersionKey(e, MaxVersion(db.versions, e))].typeKey == tx.seen.key.value &&
      c in db.conflicts && db.conflicts[c].status.Resolved?
  {
    hide Sound, MaxVersion, HasDocument, Document, ResolveOutcome, T.Inv, T.Next, WithResolution, Bound, VersionFree;
    ReadIsNow(s, i);
    var (tx, e) := (s.txs[i], s.txs[i].task.entity);
    var out := ResolutionExists(Document(s.db, e), tx.task.path, tx.task.value);
    s' := T.State(WithResolution(s.db, tx.task.conflict, e, tx.seen.next.value, tx.seen.key.value, out), s.txs - {i});
    Committing(s, rules, i, out, s');
    ResolutionResolves(s.db, tx.task.conflict, e, tx.task.path, tx.task.value, tx.seen.key.value, out);
    T.StepInv(s, rules, s');
  }

  lemma ReadIsNow(s: T.State, i: nat)
    requires T.Inv(s) && i in s.txs && HasRead(s.txs[i])
    ensures
      var (tx, e) := (s.txs[i], s.txs[i].task.entity);
      Sound(s.db) && e in s.db.entities && HasDocument(s.db, e) && Bound(s.db, e) && tx.task.conflict in s.db.conflicts &&
      tx.seen.documents[e] == Document(s.db, e) && tx.seen.next.value == MaxVersion(s.db.versions, e) + 1 &&
      VersionFree(s.db, e, tx.seen.next.value)
  {
    hide Sound, MaxVersion, HasDocument, Document, T.Exclusive, T.ClaimsRespected, T.Concerns;
    var (tx, e) := (s.txs[i], s.txs[i].task.entity);
    assert T.TxSound(s.db, tx);
    assert T.Locks(tx.task)[..tx.held] == T.Locks(tx.task) == [e];
    S.LiveHasDocument(s.db, e);
    S.NextIsFree(s.db, e);
  }

  lemma Committing(s: T.State, rules: SchemaRules, i: nat, out: Object, s': T.State)
    requires i in s.txs && HasRead(s.txs[i])
    requires
      var (task, seen) := (s.txs[i].task, s.txs[i].seen);
      Bound(s.db, task.entity) && VersionFree(s.db, task.entity, seen.next.value) &&
      ResolveOutcome(seen.documents[task.entity], task.path, task.value, out) &&
      s' == T.State(WithResolution(s.db, task.conflict, task.entity, seen.next.value, seen.key.value, out), s.txs - {i})
    ensures T.Next(s, rules, s')
  {
    hide ResolveOutcome, WithResolution, VersionFree, Bound;
    assert T.Commits(s, rules, i, s');
  }

  lemma ResolutionResolves(db: Db, c: Id, e: Id, path: string, value: Json, key: string, out: Object)
    requires Sound(db) && e in db.entities && HasDocument(db, e) && Bound(db, e) && c in db.conflicts
    requires ResolveOutcome(Document(db, e), path, value, out)
    ensures
      var db' := WithResolution(db, c, e, MaxVersion(db.versions, e) + 1, key, out);
      var k := VersionKey(e, MaxVersion(db.versions, e) + 1);
      db'.entities == db.entities && db'.families == db.families && MaxVersion(db'.versions, e) == k.version &&
      k in db'.outbox && db'.outbox[k].typeKey == key &&
      c in db'.conflicts && db'.conflicts[c].status.Resolved?
  {
    hide Sound, MaxVersion, ResolveOutcome, Changes;
    assert Follows(Document(db, e), out) by { assert Makes(Document(db, e), ResolvedAt(path, value), out); }
    hide Follows;
    AddVersionSound(db, e, key, out) by { SoundIsExcept(db, e); }
  }

  lemma SoundIsExcept(db: Db, e: Id)
    requires Sound(db)
    ensures SoundExcept(db, e)
  {
  }

  /** Transaction `i` has ended, and the others are where they were. */
  predicate OnlyEnds(s: T.State, s': T.State, i: nat) {
    s'.txs.Keys == s.txs.Keys - {i} && forall j :: j in s.txs && j != i ==> s'.txs[j] == s.txs[j]
  }

  predicate ResolvedOnceMore(db: Db, db': Db, e: Id, c: Id) {
    e in db'.entities && MaxVersion(db'.versions, e) == MaxVersion(db.versions, e) + 1 &&
    c in db'.conflicts && db'.conflicts[c].status.Resolved?
  }

  /** A resolution that has begun always goes through once it gets its lock, whatever has become of
      the conflict since. */
  lemma ResolutionGoesThrough(s: T.State, rules: SchemaRules, i: nat) returns (path: seq<T.State>)
    requires T.Inv(s) && i in s.txs && s.txs[i].task.Resolve? && s.txs[i].held == 0
    requires s.txs[i].task.entity in s.db.entities && !T.LockedByOther(s, i, s.txs[i].task.entity)
    ensures path != [] && IsPath(path, rules) && path[0] == s && T.Inv(Last(path)) && OnlyEnds(s, Last(path), i)
    ensures ResolvedOnceMore(s.db, Last(path).db, s.txs[i].task.entity, s.txs[i].task.conflict)
  {
    hide MaxVersion, T.Inv, T.Next, T.LockedByOther, IsPath, HasRead;
    var looks := ResolutionReads(s, rules, i);
    var s' := ResolutionCommits(Last(looks), rules, i);
    OneStep(Last(looks), s', rules);
    PathJoin(looks, [Last(looks), s'], rules);
    path := looks + [Last(looks), s'][1..];
  }

  lemma OneStep(s: T.State, s': T.State, rules: SchemaRules)
    requires T.Next(s, rules, s')
    ensures IsPath([s, s'], rules)
  {
    hide T.Next;
  }

  // ---------- what interleaving adds ----------

  /** Two transactions that find the same conflict open may both resolve it, one after the other,
      each with a version of its own. This is so in every state with an open conflict on an entity
      that nobody has locked. */
  lemma ConflictResolvedTwice(s: T.State, rules: SchemaRules, i: nat, j: nat, c: Id, v: Json, w: Json) returns (path: seq<T.State>)
    requires T.Inv(s) && i !in s.txs && j !in s.txs && i != j
    requires c in s.db.conflicts && s.db.conflicts[c].status.Open? && !T.LockedByAny(s, s.db.conflicts[c].entity)
    ensures path != [] && IsPath(path, rules) && path[0] == s
    ensures
      var (e, db) := (s.db.conflicts[c].entity, Last(path).db);
      MaxVersion(db.versions, e) == MaxVersion(s.db.versions, e) + 2 && c in db.conflicts && db.conflicts[c].status.Resolved?
  {
    hide Sound, MaxVersion, T.TxSound, T.Next, T.Inv, IsPath;
    var e := s.db.conflicts[c].entity;
    var at := S.PathOf(s.db.conflicts[c]);
    var s1 := s.(txs := s.txs[i := T.Tx(T.Resolve(e, c, at, v), 0, T.NothingSeen(), {})]);
    var s2 := s1.(txs := s1.txs[j := T.Tx(T.Resolve(e, c, at, w), 0, T.NothingSeen(), {})]);
    Beginning(s, rules, i, c, v, s1);
    Beginning(s1, rules, j, c, w, s2);
    NobodyElse(s2, i, e);
    var first := ResolutionGoesThrough(s2, rules, i);
    NobodyAfter(s2, Last(first), i, e);
    NobodyElse(Last(first), j, e);
    var second := ResolutionGoesThrough(Last(first), rules, j);
    TwoSteps(s, s1, s2, rules);
    PathJoin([s, s1, s2], first, rules);
    PathJoin([s, s1, s2] + first[1..], second, rules);
    path := [s, s1, s2] + first[1..] + second[1..];
  }

  /** An event may carry a type key that its family no longer has: the family is renamed after the
      key was read and before the event is committed. */
  lemma EventCarriesOldKey(s: T.State, rules: SchemaRules, i: nat, c: Id, v: Json, name: Family) returns (path: seq<T.State>)
    requires T.Inv(s) && i !in s.txs && c in s.db.conflicts && s.db.conflicts[c].status.Open?
    requires s.db.conflicts[c].entity in s.db.entities && !T.LockedByAny(s, s.db.conflicts[c].entity)
    requires
      var f := s.db.entities[s.db.conflicts[c].entity].family;
      f in s.db.families && KeyFree(s.db.families, f, name) && !T.ClaimedByAny(s, T.FamilyRow(f)) && TypeKey(name) != TypeKey(s.db.families[f])
    ensures path != [] && IsPath(path, rules) && path[0] == s
    ensures
      var (e, db) := (s.db.conflicts[c].entity, Last(path).db);
      var k := VersionKey(e, MaxVersion(db.versions, e));
      MaxVersion(db.versions, e) == MaxVersion(s.db.versions, e) + 1 && k in db.outbox && Bound(db, e) &&
      db.outbox[k].typeKey == S.KeyOf(s.db, e) != S.KeyOf(db, e)
  {
    hide Sound, MaxVersion, T.TxSound, T.Next, T.Inv, IsPath, KeyFree, HasRead, TypeKey;
    var e := s.db.conflicts[c].entity;
    var f := s.db.entities[e].family;
    var s1 := s.(txs := s.txs[i := T.Tx(T.Resolve(e, c, S.PathOf(s.db.conflicts[c]), v), 0, T.NothingSeen(), {})]);
    Beginning(s, rules, i, c, v, s1);
    NobodyElse(s1, i, e);
    OneStep(s, s1, rules);
    var looks := ResolutionReads(s1, rules, i);
    var s2 := Last(looks);
    var s3 := s2.(db := RenameFamily(s2.db, f, name));
    Renaming(s, s2, rules, i, f, name, s3);
    var s4 := ResolutionCommits(s3, rules, i);
    TwoSteps(s2, s3, s4, rules);
    PathJoin([s, s1], looks, rules);
    PathJoin([s, s1] + looks[1..], [s2, s3, s4], rules);
    path := [s, s1] + looks[1..] + [s2, s3, s4][1..];
    Renamed(s.db, e, f, name, s3.db, s4);
  }

  lemma Renaming(s: T.State, s2: T.State, rules: SchemaRules, i: nat, f: Id, name: Family, s3: T.State)
    requires T.Inv(s2) && i in s2.txs && s2.txs[i].task.Resolve? && s2.db == s.db && s2.txs.Keys == s.txs.Keys + {i} && i !in s.txs
    requires forall j :: j in s.txs ==> s2.txs[j] == s.txs[j]
    requires f in s.db.families && KeyFree(s.db.families, f, name) && !T.ClaimedByAny(s, T.FamilyRow(f))
    requires s3 == s2.(db := RenameFamily(s2.db, f, name))
    ensures T.Next(s2, rules, s3) && T.Inv(s3)
  {
    hide Sound, KeyFree, RenameFamily, T.LocksHeld, T.SeenHolds, T.ConflictStands, T.Exclusive, T.ClaimsRespected;
    assert T.TxSound(s2.db, s2.txs[i]);
    forall j | j in s2.txs ensures T.FamilyRow(f) !in s2.txs[j].claims {}
    assert T.SingleStatement(s2, s3);
    hide T.SingleStatement, T.TxSound;
    T.StepInv(s2, rules, s3);
  }

  lemma Renamed(db: Db, e: Id, f: Id, name: Family, db3: Db, s4: T.State)
    requires T.Inv(s4) && e in s4.db.entities && e in db.entities && db.entities[e].family == f && f in db.families
    requires db3 == RenameFamily(db, f, name) && s4.db.families == db3.families && s4.db.entities[e] == db.entities[e]
    requires TypeKey(name) != TypeKey(db.families[f]) && Bound(db, e)
    ensures Bound(s4.db, e) && S.KeyOf(s4.db, e) != S.KeyOf(db, e)
  {
    hide Sound, T.TxSound, TypeKey;
    S.LiveHasDocument(s4.db, e);
  }

  lemma NobodyElse(s: T.State, i: nat, e: Id)
    requires i in s.txs && !T.OnCatalog(s.txs[i].task) && !T.LockedByAny(s, e)
    ensures !T.LockedByOther(s, i, e)
  {
    hide T.HasLocked;
  }

  lemma NobodyAfter(s: T.State, s': T.State, i: nat, e: Id)
    requires !T.LockedByAny(s, e) && OnlyEnds(s, s', i)
    ensures !T.LockedByAny(s', e)
  {
    hide T.HasLocked;
  }

  lemma TwoSteps(s: T.State, s1: T.State, s2: T.State, rules: SchemaRules)
    requires T.Next(s, rules, s1) && T.Next(s1, rules, s2)
    ensures IsPath([s, s1, s2], rules)
  {
    hide T.Next;
  }

  lemma Beginning(s: T.State, rules: SchemaRules, i: nat, c: Id, v: Json, s': T.State)
    requires T.Inv(s) && i !in s.txs && c in s.db.conflicts && s.db.conflicts[c].status.Open? && !T.LockedByAny(s, s.db.conflicts[c].entity)
    requires s' == s.(txs := s.txs[i := T.Tx(T.Resolve(s.db.conflicts[c].entity, c, S.PathOf(s.db.conflicts[c]), v), 0, T.NothingSeen(), {})])
    ensures T.Next(s, rules, s') && T.Inv(s')
    ensures !T.LockedByAny(s', s.db.conflicts[c].entity) && s.db.conflicts[c].entity in s.db.entities
  {
    hide Sound, T.TxSound, T.Exclusive, T.ClaimsRespected;
    var task := T.Resolve(s.db.conflicts[c].entity, c, S.PathOf(s.db.conflicts[c]), v);
    assert T.MayBegin(s.db, rules, task);
    assert T.Begins(s, rules, i, task, s');
    T.BeginsInv(s, rules, i, task, s');
    S.ConflictIsLive(s.db, c);
    forall j | j in s'.txs ensures !T.HasLocked(s'.txs[j], s.db.conflicts[c].entity) {}
  }

  // ---------- a publication and a deletion ----------

  /** Nobody has a row of the family. */
  ghost predicate FamilyIsFree(s: T.State, f: Id) {
    !T.LockedByAny(s, f) && !T.ClaimedByAny(s, T.FamilyRow(f)) && !T.ClaimedByAny(s, T.DraftRow(f))
  }

  /** In every state with a family that has neither revisions nor entities and that nobody is at work
      on, a publication and a deletion of it can come to wait for each other. */
  lemma PublishAndDeleteMeet(s: T.State, rules: SchemaRules, p: nat, d: nat, f: Id) returns (path: seq<T.State>)
    requires T.Inv(s) && p !in s.txs && d !in s.txs && p != d && f in s.db.families && FamilyIsFree(s, f)
    requires !HasEntities(s.db, f) && RevisionNumbers(s.db.revisions, f) == {}
    ensures path != [] && IsPath(path, rules) && path[0] == s
    ensures PublishMeetsDelete(Last(path)) && Deadlock(Last(path))
  {
    hide T.Inv, T.Next, Sound, FamilyIsFree, RevisionNumbers, HasEntities, Deadlock, IsPath;
    FamilyHasDraft(s, f);
    var seen1 := T.NothingSeen().(draft := Some(s.db.drafts[f]));
    var seen2 := seen1.(next := Some(MaxRevision(s.db.revisions, f) + 1));
    var deleting := T.Tx(T.DeleteFamily(f), 0, T.NothingSeen(), {});
    var s1 := s.(txs := s.txs[d := deleting]);
    var s2 := s1.(txs := s1.txs[p := T.Tx(T.Publish(f), 0, T.NothingSeen(), {})]);
    var s3 := s1.(txs := s1.txs[p := T.Tx(T.Publish(f), 1, T.NothingSeen(), {})]);
    var s4 := s1.(txs := s1.txs[p := T.Tx(T.Publish(f), 1, seen1, {})]);
    var s5 := s1.(txs := s1.txs[p := T.Tx(T.Publish(f), 1, seen2, {})]);
    var s6 := s5.(txs := s5.txs[d := deleting.(claims := {T.FamilyRow(f)})]);
    BothBegin(s, rules, p, d, f, s1, s2);
    PublicationLocks(s, s2, rules, p, d, f, s3);
    PublicationReads(s3, rules, p, f, seen1, s4);
    PublicationReadsOn(s4, rules, p, f, seen2, s5);
    assert s5.txs[d] == deleting;
    DeletionClaims(s, s5, rules, p, d, f, s6);
    path := [s, s1, s2, s3, s4, s5, s6];
    SixSteps(s, s1, s2, s3, s4, s5, s6, rules);
    PathKeepsInv(path, rules);
    NowTheyMeet(s, s6, p, d, f);
  }

  lemma FamilyHasDraft(s: T.State, f: Id)
    requires T.Inv(s) && f in s.db.families
    ensures f in s.db.drafts
  {
    hide BindingsSound, VersionsSound, EventsSound, HistoriesSound, MappingsSound, ConflictsSound, UpToDate, T.TxSound, T.Exclusive, T.ClaimsRespected, RevisionsNumbered, OneRevisionPerNumber;
  }

  lemma BothBegin(s: T.State, rules: SchemaRules, p: nat, d: nat, f: Id, s1: T.State, s2: T.State)
    requires p !in s.txs && d !in s.txs && p != d && !HasEntities(s.db, f) && RevisionNumbers(s.db.revisions, f) == {}
    requires s1 == s.(txs := s.txs[d := T.Tx(T.DeleteFamily(f), 0, T.NothingSeen(), {})])
    requires s2 == s1.(txs := s1.txs[p := T.Tx(T.Publish(f), 0, T.NothingSeen(), {})])
    ensures T.Next(s, rules, s1) && T.Next(s1, rules, s2)
  {
    hide HasEntities, RevisionNumbers;
    assert T.Begins(s, rules, d, T.DeleteFamily(f), s1);
    assert T.Begins(s1, rules, p, T.Publish(f), s2);
  }

  lemma PublicationLocks(s: T.State, s2: T.State, rules: SchemaRules, p: nat, d: nat, f: Id, s3: T.State)
    requires FamilyIsFree(s, f) && f in s2.db.drafts && s2.txs.Keys == s.txs.Keys + {p, d} && p !in s.txs && d !in s.txs && p != d
    requires forall j :: j in s.txs ==> s2.txs[j] == s.txs[j]
    requires s2.txs[d] == T.Tx(T.DeleteFamily(f), 0, T.NothingSeen(), {}) && s2.txs[p] == T.Tx(T.Publish(f), 0, T.NothingSeen(), {})
    requires s3.db == s2.db && s3.txs == s2.txs[p := T.Tx(T.Publish(f), 1, T.NothingSeen(), {})]
    ensures T.Next(s2, rules, s3)
  {
    forall j | j in s2.txs && j != p ensures !T.Blocks(s2.txs[j], s2.txs[p].task, f) {}
    assert T.Acquires(s2, p, s3);
  }

  lemma PublicationReads(s: T.State, rules: SchemaRules, p: nat, f: Id, seen: T.Seen, s': T.State)
    requires p in s.txs && s.txs[p] == T.Tx(T.Publish(f), 1, T.NothingSeen(), {}) && f in s.db.drafts
    requires seen == T.NothingSeen().(draft := Some(s.db.drafts[f]))
    requires s'.db == s.db && s'.txs == s.txs[p := T.Tx(T.Publish(f), 1, seen, {})]
    ensures T.Next(s, rules, s')
  {
    assert T.Looks(s.db, s.txs[p].task, {}, s.txs[p].seen, seen);
    assert T.Reads(s, p, s');
  }

  lemma PublicationReadsOn(s: T.State, rules: SchemaRules, p: nat, f: Id, seen: T.Seen, s': T.State)
    requires p in s.txs && s.txs[p].task == T.Publish(f) && s.txs[p].held == 1 && s.txs[p].claims == {}
    requires seen == s.txs[p].seen.(next := Some(MaxRevision(s.db.revisions, f) + 1))
    requires s'.db == s.db && s'.txs == s.txs[p := T.Tx(T.Publish(f), 1, seen, {})]
    ensures T.Next(s, rules, s')
  {
    hide MaxRevision;
    assert T.Looks(s.db, s.txs[p].task, {}, s.txs[p].seen, seen);
    assert T.Reads(s, p, s');
  }

  lemma DeletionClaims(s: T.State, s5: T.State, rules: SchemaRules, p: nat, d: nat, f: Id, s6: T.State)
    requires FamilyIsFree(s, f) && f in s5.db.families && s5.txs.Keys == s.txs.Keys + {p, d} && p !in s.txs && d !in s.txs && p != d
    requires forall j :: j in s.txs ==> s5.txs[j] == s.txs[j]
    requires s5.txs[d] == T.Tx(T.DeleteFamily(f), 0, T.NothingSeen(), {}) && s5.txs[p].claims == {}
    requires s6 == s5.(txs := s5.txs[d := s5.txs[d].(claims := {T.FamilyRow(f)})])
    ensures T.Next(s5, rules, s6)
  {
    forall j | j in s5.txs && j != d ensures !T.Keeps(s5.txs[j], T.FamilyRow(f), true) {}
    assert T.FamilyRow(f) in T.Wants(s5.db, s5.txs[d]);
    assert s5.txs[d].claims + {T.FamilyRow(f)} == {T.FamilyRow(f)};
    assert T.Claims(s5, d, s6);
  }

  lemma SixSteps(s: T.State, s1: T.State, s2: T.State, s3: T.State, s4: T.State, s5: T.State, s6: T.State, rules: SchemaRules)
    requires T.Next(s, rules, s1) && T.Next(s1, rules, s2) && T.Next(s2, rules, s3)
    requires T.Next(s3, rules, s4) && T.Next(s4, rules, s5) && T.Next(s5, rules, s6)
    ensures IsPath([s, s1, s2, s3, s4, s5, s6], rules)
  {
    hide T.Next;
  }

  lemma NowTheyMeet(s: T.State, s6: T.State, p: nat, d: nat, f: Id)
    requires T.Inv(s6) && p in s6.txs && d in s6.txs && s6.db == s.db && !HasEntities(s.db, f) && RevisionNumbers(s.db.revisions, f) == {}
    requires s6.txs[p].task == T.Publish(f) && s6.txs[p].held == 1 && s6.txs[p].claims == {}
    requires s6.txs[p].seen.draft.Some? && s6.txs[p].seen.next.Some?
    requires s6.txs[d].task == T.DeleteFamily(f) && s6.txs[d].claims == {T.FamilyRow(f)}
    ensures PublishMeetsDelete(s6) && Deadlock(s6)
  {
    hide T.Inv, HasEntities, WaitsFor;
    forall r | r in s.db.revisions && s.db.revisions[r].family == f
      ensures s.db.revisions[r].no in RevisionNumbers(s.db.revisions, f) {}
    assert InsertsRevision(s6.txs[p], f) && DeletesDraft(s6.db, s6.txs[d], f);
    MeetingIsCircle(s6);
  }
}
