/** The statements that write the tables, and what each keeps. */
module Statements {
  import opened Basics
  import opened JsonValues
  import opened Maps
  import opened Lists
  import opened AuthorityMerge
  import opened ExternalRefs
  import opened ProfileSteps
  import opened Tables

  // ---------- versions and events ----------

  /** The joins that an event is built from have their rows. */
  predicate Bound(db: Db, e: Id) {
    e in db.entities && db.entities[e].family in db.families && db.entities[e].revision in db.revisions
  }

  function TypeKey(f: Family): string {
    f.namespace + "/" + f.code
  }

  /** The event of a version written now, under the type key that was read for it. */
  function EventOf(db: Db, e: Id, key: string): Event
    requires Bound(db, e)
  {
    Event(key, db.entities[e].revision, db.revisions[db.entities[e].revision].no)
  }

  /** A version row, and an event row unless there is one for that version already. */
  function AddVersion(db: Db, e: Id, key: string, version: int, doc: Object): Db
    requires Bound(db, e)
  {
    var k := VersionKey(e, version);
    db.(versions := db.versions[k := doc],
        outbox := if k in db.outbox then db.outbox else db.outbox[k := EventOf(db, e, key)])
  }

  lemma MaxVersionIs(versions: map<VersionKey, Object>, e: Id, n: int)
    requires n >= 0 && forall k: VersionKey :: k.entity == e ==> (k in versions <==> 1 <= k.version <= n)
    ensures MaxVersion(versions, e) == n && Numbered(versions, e)
  {
    var numbers := VersionNumbers(versions, e);
    assert n > 0 ==> VersionKey(e, n) in versions && n in numbers;
    assert forall v :: v in numbers ==> VersionKey(e, v) in versions;
  }

  lemma MaxVersionSame(versions: map<VersionKey, Object>, versions': map<VersionKey, Object>, e: Id)
    requires Numbered(versions, e)
    requires forall k: VersionKey :: k.entity == e ==> (k in versions <==> k in versions')
    ensures MaxVersion(versions', e) == MaxVersion(versions, e) && Numbered(versions', e)
  {
    NumberedFromZero(versions, e);
    MaxVersionIs(versions', e, MaxVersion(versions, e));
  }

  lemma NumberedFromZero(versions: map<VersionKey, Object>, e: Id)
    requires Numbered(versions, e)
    ensures MaxVersion(versions, e) >= 0
  {
    if VersionNumbers(versions, e) != {} {
      assert VersionKey(e, MaxVersion(versions, e)) in versions;
    }
  }

  lemma NumbersAfterVersion(versions: map<VersionKey, Object>, e: Id, doc: Object)
    requires forall x :: Numbered(versions, x)
    ensures
      var n := MaxVersion(versions, e);
      var versions' := versions[VersionKey(e, n + 1) := doc];
      n >= 0 && VersionKey(e, n + 1) !in versions && MaxVersion(versions', e) == n + 1 &&
      forall x :: Numbered(versions', x) && (x != e ==> MaxVersion(versions', x) == MaxVersion(versions, x))
  {
    hide MaxVersion;
    var n := MaxVersion(versions, e);
    var versions' := versions[VersionKey(e, n + 1) := doc];
    assert Numbered(versions, e);
    NumberedFromZero(versions, e);
    MaxVersionIs(versions', e, n + 1);
    forall x ensures Numbered(versions', x) && (x != e ==> MaxVersion(versions', x) == MaxVersion(versions, x)) {
      assert Numbered(versions, x);
      if x != e { MaxVersionSame(versions, versions', x); }
    }
  }

  /** The document an entity has now, or nothing for one without a version. */
  predicate HasDocument(db: Db, e: Id) {
    VersionKey(e, MaxVersion(db.versions, e)) in db.versions
  }

  function Document(db: Db, e: Id): Object
    requires HasDocument(db, e)
  {
    db.versions[VersionKey(e, MaxVersion(db.versions, e))]
  }

  /** The row that the next version takes is free in both tables, and inserting it restores
      everything that holds of a committed state. */
  lemma AddVersionSound(db: Db, e: Id, key: string, doc: Object)
    requires SoundExcept(db, e) && Bound(db, e)
    requires if HasDocument(db, e) then Follows(Document(db, e), doc) else IsFirst(doc)
    ensures
      var k := VersionKey(e, MaxVersion(db.versions, e) + 1);
      var db' := AddVersion(db, e, key, k.version, doc);
      k !in db.versions && k !in db.outbox && MaxVersion(db'.versions, e) == k.version &&
      Sound(db') && Changes(db, db', {e})
  {
    hide CatalogSound, BindingsSound, MappingsSound, ConflictsSound, Follows, IsFirst, MaxVersion, Numbered, EventsSound, HistoriesSound, UpToDate, Changes;
    var n := MaxVersion(db.versions, e);
    var k := VersionKey(e, n + 1);
    var db' := AddVersion(db, e, key, n + 1, doc);
    NumbersAfterVersion(db.versions, e, doc);
    assert VersionsSound(db'.entities, db'.versions, db'.outbox);
    EventAdded(db, e, key, k);
    HistoryAdded(db, e, doc);
    VersionUpToDate(db, e, key, doc);
    AddVersionChanges(db, e, key, n + 1, doc);
  }

  lemma AddVersionChanges(db: Db, e: Id, key: string, version: int, doc: Object)
    requires Bound(db, e) && VersionKey(e, version) !in db.versions
    ensures Changes(db, AddVersion(db, e, key, version, doc), {e})
  {
  }

  lemma EventAdded(db: Db, e: Id, key: string, k: VersionKey)
    requires SoundExcept(db, e) && Bound(db, e) && k.entity == e
    ensures EventsSound(db.entities, db.revisions, db.outbox[k := EventOf(db, e, key)])
  {
    hide CatalogSound, VersionsSound, MappingsSound, ConflictsSound, HistoriesSound, UpToDate;
  }

  lemma HistoryAdded(db: Db, e: Id, doc: Object)
    requires SoundExcept(db, e)
    requires if HasDocument(db, e) then Follows(Document(db, e), doc) else IsFirst(doc)
    ensures HistoriesSound(db.versions[VersionKey(e, MaxVersion(db.versions, e) + 1) := doc])
  {
    hide CatalogSound, BindingsSound, EventsSound, MappingsSound, ConflictsSound, UpToDate, Follows, IsFirst, MaxVersion;
    var n := MaxVersion(db.versions, e);
    assert Numbered(db.versions, e);
    NumberedFromZero(db.versions, e);
    var k := VersionKey(e, n + 1);
    var versions' := db.versions[k := doc];
    forall p | p in versions' && p.Next() in versions' ensures Follows(versions'[p], versions'[p.Next()]) {
      if p.Next() == k {
        assert p == VersionKey(e, n);
      } else {
        assert p != k;
      }
    }
  }

  lemma VersionUpToDate(db: Db, e: Id, key: string, doc: Object)
    requires SoundExcept(db, e) && Bound(db, e)
    ensures forall x :: x in db.entities ==> UpToDate(AddVersion(db, e, key, MaxVersion(db.versions, e) + 1, doc), x)
  {
    hide CatalogSound, BindingsSound, EventsSound, MappingsSound, ConflictsSound, HistoriesSound, MaxVersion, Numbered;
    NumbersAfterVersion(db.versions, e, doc);
    forall x | x in db.entities ensures UpToDate(AddVersion(db, e, key, MaxVersion(db.versions, e) + 1, doc), x) {
      assert x != e ==> UpToDate(db, x);
    }
  }

  // ---------- entities ----------

  function Bind(db: Db, e: Id, r: Id): Db
    requires e in db.entities
  {
    db.(entities := db.entities[e := Entity(db.entities[e].family, r)])
  }

  lemma BindSound(db: Db, e: Id, r: Id)
    requires Sound(db) && e in db.entities && r in db.revisions && db.revisions[r].family == db.entities[e].family
    ensures SoundExcept(Bind(db, e, r), e) && Bound(Bind(db, e, r), e) && Changes(db, Bind(db, e, r), {e})
  {
    hide CatalogSound, HistoriesSound, VersionsSound, MappingsSound, ConflictsSound, EventsSound, Changes, UpToDate;
    BindChanges(db, e, r);
    SameFamilies(db, Bind(db, e, r));
    SameEntities(db, Bind(db, e, r));
    forall x | x in db.entities && x != e ensures UpToDate(Bind(db, e, r), x) {
      StaysUpToDate(db, Bind(db, e, r), x);
    }
  }

  lemma SameFamilies(db: Db, db': Db)
    requires db'.entities.Keys == db.entities.Keys && forall e :: e in db.entities ==> db'.entities[e].family == db.entities[e].family
    requires EventsSound(db.entities, db.revisions, db.outbox)
    ensures EventsSound(db'.entities, db.revisions, db.outbox)
  {
  }

  lemma SameEntities(db: Db, db': Db)
    requires db'.entities.Keys == db.entities.Keys
    requires VersionsSound(db.entities, db.versions, db.outbox) && MappingsSound(db.entities, db.mappings) && ConflictsSound(db.entities, db.conflicts)
    ensures VersionsSound(db'.entities, db.versions, db.outbox) && MappingsSound(db'.entities, db.mappings) && ConflictsSound(db'.entities, db.conflicts)
  {
    hide Numbered;
  }

  lemma BindChanges(db: Db, e: Id, r: Id)
    requires e in db.entities
    ensures Changes(db, Bind(db, e, r), {e})
  {
  }

  lemma StaysUpToDate(db: Db, db': Db, x: Id)
    requires x in db.entities && x in db'.entities && UpToDate(db, x)
    requires db'.entities[x] == db.entities[x] && db'.versions == db.versions && db'.outbox == db.outbox
    ensures UpToDate(db', x)
  {
  }

  function AddEntity(db: Db, e: Id, entity: Entity): Db {
    db.(entities := db.entities[e := entity], issued := db.issued + {e})
  }

  lemma AddEntitySound(db: Db, e: Id, entity: Entity)
    requires Sound(db) && e !in db.issued
    requires entity.family in db.families && entity.revision in db.revisions && db.revisions[entity.revision].family == entity.family
    ensures
      var db' := AddEntity(db, e, entity);
      SoundExcept(db', e) && Bound(db', e) && !HasDocument(db', e) && MaxVersion(db'.versions, e) == 0 && Changes(db, db', {e})
  {
    hide CatalogSound, HistoriesSound, MaxVersion, Changes, UpToDate, Numbered;
    var db' := AddEntity(db, e, entity);
    NoVersionsOf(db, e);
    AddEntityChanges(db, e, entity);
    forall x | x in db.entities ensures UpToDate(db', x) { StaysUpToDate(db, db', x); }
  }

  lemma NoVersionsOf(db: Db, e: Id)
    requires VersionsSound(db.entities, db.versions, db.outbox) && e !in db.entities
    ensures MaxVersion(db.versions, e) == 0 && forall v :: VersionKey(e, v) !in db.versions
  {
    assert Numbered(db.versions, e);
    MaxVersionIs(db.versions, e, 0);
  }

  lemma AddEntityChanges(db: Db, e: Id, entity: Entity)
    requires Consistent(db) && e !in db.issued
    ensures Changes(db, AddEntity(db, e, entity), {e})
  {
    hide CatalogSound, HistoriesSound, EventsSound, MappingsSound, MaxVersion, Numbered;
  }

  /** Deleting an entity deletes its versions, events, references and conflicts with it. */
  function RemoveEntity(db: Db, e: Id): Db {
    db.(entities := db.entities - {e},
        versions := (map k | k in db.versions && k.entity != e :: db.versions[k]),
        outbox := (map k | k in db.outbox && k.entity != e :: db.outbox[k]),
        mappings := (set m | m in db.mappings && m.entity != e),
        conflicts := (map c | c in db.conflicts && db.conflicts[c].entity != e :: db.conflicts[c]))
  }

  lemma RemoveEntitySound(db: Db, e: Id)
    requires Sound(db)
    ensures Sound(RemoveEntity(db, e)) && Changes(db, RemoveEntity(db, e), {e})
  {
    hide CatalogSound, HistoriesSound, IsFirst, Follows, Changes, UpToDate, VersionsSound, MaxVersion;
    var db' := RemoveEntity(db, e);
    VersionsWithout(db, e);
    HistoriesWithout(db, e);
    RemoveEntityChanges(db, e);
    forall x | x in db'.entities ensures UpToDate(db', x) { UpToDateWithout(db, e, x); }
  }

  lemma VersionsWithout(db: Db, e: Id)
    requires VersionsSound(db.entities, db.versions, db.outbox)
    ensures
      var db' := RemoveEntity(db, e);
      VersionsSound(db'.entities, db'.versions, db'.outbox) &&
      forall x :: x != e ==> MaxVersion(db'.versions, x) == MaxVersion(db.versions, x)
  {
    hide MaxVersion;
    var db' := RemoveEntity(db, e);
    forall x ensures Numbered(db'.versions, x) && (x != e ==> MaxVersion(db'.versions, x) == MaxVersion(db.versions, x)) {
      assert Numbered(db.versions, x);
      if x == e { MaxVersionIs(db'.versions, e, 0); } else { MaxVersionSame(db.versions, db'.versions, x); }
    }
  }

  lemma UpToDateWithout(db: Db, e: Id, x: Id)
    requires Sound(db) && x in db.entities && x != e
    ensures UpToDate(RemoveEntity(db, e), x)
  {
    hide CatalogSound, BindingsSound, EventsSound, HistoriesSound, MappingsSound, ConflictsSound, MaxVersion, Numbered;
    VersionsWithout(db, e);
    assert UpToDate(db, x);
  }

  lemma HistoriesWithout(db: Db, e: Id)
    requires HistoriesSound(db.versions)
    ensures HistoriesSound(RemoveEntity(db, e).versions)
  {
    hide Follows, IsFirst;
  }

  lemma RemoveEntityChanges(db: Db, e: Id)
    requires Consistent(db)
    ensures Changes(db, RemoveEntity(db, e), {e})
  {
    hide CatalogSound, HistoriesSound, MaxVersion, Numbered, Undisturbed;
    forall x | x != e ensures Undisturbed(db, RemoveEntity(db, e), x) { RemoveEntityElsewhere(db, e, x); }
  }

  lemma RemoveEntityElsewhere(db: Db, e: Id, x: Id)
    requires x != e
    ensures Undisturbed(db, RemoveEntity(db, e), x)
  {
  }

  // ---------- external references ----------

  /** No other entity has one of the references. */
  predicate RefsFree(mappings: set<Mapping>, e: Id, refs: seq<Ref>) {
    forall m :: m in mappings && m.entity != e ==> m.ref !in TrimmedAll(refs)
  }

  /** Replaces the references of `e`. */
  function ReplaceRefs(mappings: set<Mapping>, e: Id, refs: seq<Ref>): set<Mapping> {
    (set m | m in mappings && m.entity != e) + (set r | r in TrimmedAll(refs) :: Mapping(r, e))
  }

  lemma ReplaceRefsSound(db: Db, e: Id, refs: seq<Ref>)
    requires Sound(db) && e in db.entities && RefsFree(db.mappings, e, refs)
    ensures
      var db' := db.(mappings := ReplaceRefs(db.mappings, e, refs));
      Sound(db') && Changes(db, db', {e}) && RefsOf(db'.mappings, e) == set r | r in TrimmedAll(refs)
  {
    hide CatalogSound, BindingsSound, VersionsSound, EventsSound, HistoriesSound, MaxVersion;
    TrimmedOnce(refs);
    hide Trimmed;
    var db' := db.(mappings := ReplaceRefs(db.mappings, e, refs));
    assert MappingsSound(db'.entities, db'.mappings);
    forall r | r in TrimmedAll(refs) ensures Mapping(r, e) in db'.mappings {}
    forall x | x in db'.entities ensures UpToDate(db', x) { StaysUpToDate(db, db', x); }
  }

  lemma TrimmedOnce(refs: seq<Ref>)
    ensures forall r :: r in TrimmedAll(refs) ==> Trimmed(r) == r
  {
    forall i | 0 <= i < |refs| ensures Trimmed(Trimmed(refs[i])) == Trimmed(refs[i]) {
      TrimIdempotentRef(refs[i]);
    }
  }

  function MoveMapping(m: Mapping, source: Id, target: Id): Mapping {
    if m.entity == source then Mapping(m.ref, target) else m
  }

  function MoveMappings(mappings: set<Mapping>, source: Id, target: Id): set<Mapping> {
    set m | m in mappings :: MoveMapping(m, source, target)
  }

  /** The references both entities have: what the collision query of a merge counts. */
  function SharedRefs(mappings: set<Mapping>, source: Id, target: Id): set<Ref> {
    RefsOf(mappings, source) * RefsOf(mappings, target)
  }

  /** Two entities never share a reference, so a merge never meets a collision. It loses and adds
      no reference: the target has afterwards what the two had, and nobody else changes. */
  lemma MovingKeepsReferences(entities: map<Id, Entity>, mappings: set<Mapping>, source: Id, target: Id)
    requires MappingsSound(entities, mappings) && source != target
    ensures
      var moved := MoveMappings(mappings, source, target);
      SharedRefs(mappings, source, target) == {} &&
      RefsOf(moved, target) == RefsOf(mappings, source) + RefsOf(mappings, target) &&
      RefsOf(moved, source) == {} && |moved| == |mappings| &&
      (forall x :: x != source && x != target ==> RefsOf(moved, x) == RefsOf(mappings, x)) &&
      forall m, n :: m in moved && n in moved && m.ref == n.ref ==> m == n
  {
    var moved := MoveMappings(mappings, source, target);
    assert SharedRefs(mappings, source, target) == {};
    forall m | m in mappings ensures MoveMapping(m, source, target) in moved {}
    assert RefsOf(moved, target) == RefsOf(mappings, source) + RefsOf(mappings, target) by {
      MovedToTarget(mappings, source, target);
    }
    forall x | x != source && x != target ensures RefsOf(moved, x) == RefsOf(mappings, x) {
      MovedElsewhere(mappings, source, target, x);
    }
    MovedCount(mappings, source, target);
  }

  lemma MovedToTarget(mappings: set<Mapping>, source: Id, target: Id)
    requires source != target
    ensures RefsOf(MoveMappings(mappings, source, target), target) == RefsOf(mappings, source) + RefsOf(mappings, target)
  {
    var moved := MoveMappings(mappings, source, target);
    forall r | r in RefsOf(mappings, source) + RefsOf(mappings, target) ensures r in RefsOf(moved, target) {
      var m :| m in mappings && m.ref == r && (m.entity == source || m.entity == target);
      assert MoveMapping(m, source, target) == Mapping(r, target);
      assert Mapping(r, target) in moved;
    }
  }

  lemma MovedElsewhere(mappings: set<Mapping>, source: Id, target: Id, x: Id)
    requires x != source && x != target
    ensures RefsOf(MoveMappings(mappings, source, target), x) == RefsOf(mappings, x)
  {
    var moved := MoveMappings(mappings, source, target);
    forall r | r in RefsOf(mappings, x) ensures r in RefsOf(moved, x) {
      var m :| m in mappings && m.ref == r && m.entity == x;
      assert MoveMapping(m, source, target) == m;
      assert m in moved;
    }
  }

  lemma {:induction false} MovedCount(mappings: set<Mapping>, source: Id, target: Id)
    requires forall m, n :: m in mappings && n in mappings && m.ref == n.ref ==> m == n
    ensures |MoveMappings(mappings, source, target)| == |mappings|
    decreases |mappings|
  {
    if mappings != {} {
      var m := AnyOf(mappings);
      var rest := mappings - {m};
      MovedCount(rest, source, target);
      var moved := MoveMapping(m, source, target);
      forall n | n in rest ensures MoveMapping(n, source, target) != moved {}
      assert MoveMappings(mappings, source, target) == MoveMappings(rest, source, target) + {moved} by {
        MovedOneMore(mappings, m, source, target);
      }
    }
  }

  lemma MovedOneMore(mappings: set<Mapping>, m: Mapping, source: Id, target: Id)
    requires m in mappings
    ensures MoveMappings(mappings, source, target) == MoveMappings(mappings - {m}, source, target) + {MoveMapping(m, source, target)}
  {
    var all, rest := MoveMappings(mappings, source, target), MoveMappings(mappings - {m}, source, target);
    forall n | n in mappings ensures MoveMapping(n, source, target) in rest + {MoveMapping(m, source, target)} {
      if n != m { assert n in mappings - {m}; }
    }
  }

  lemma MoveMappingsSound(db: Db, source: Id, target: Id)
    requires Sound(db) && source != target && target in db.entities
    ensures
      var db' := db.(mappings := MoveMappings(db.mappings, source, target));
      Sound(db') && Changes(db, db', {source, target})
  {
    hide CatalogSound, BindingsSound, VersionsSound, EventsSound, HistoriesSound, MaxVersion, Trimmed, RefsOf, SharedRefs;
    var db' := db.(mappings := MoveMappings(db.mappings, source, target));
    MovingKeepsReferences(db.entities, db.mappings, source, target);
    forall m | m in db.mappings && m.entity != source ensures m in db'.mappings {
      assert MoveMapping(m, source, target) == m;
    }
    forall x | x in db'.entities ensures UpToDate(db', x) { StaysUpToDate(db, db', x); }
  }

  // ---------- conflicts ----------

  function AddConflict(db: Db, c: Id, conflict: Conflict): Db {
    db.(conflicts := db.conflicts[c := conflict], issued := db.issued + {c})
  }

  /** One open conflict for each candidate. */
  function AddConflicts(db: Db, e: Id, candidates: seq<ConflictCandidate>, ids: seq<Id>): Db
    requires |ids| == |candidates|
    decreases |ids|
  {
    if ids == [] then db
    else
      var n := |ids| - 1;
      AddConflict(AddConflicts(db, e, candidates[..n], ids[..n]), ids[n], Conflict(e, candidates[n], Open))
  }

  ghost predicate FreshIds(db: Db, ids: seq<Id>) {
    Distinct(ids) && forall i :: 0 <= i < |ids| ==> ids[i] !in db.issued
  }

  lemma AddConflictSound(db: Db, c: Id, conflict: Conflict)
    requires Sound(db) && c !in db.issued && conflict.entity in db.entities
    ensures Sound(AddConflict(db, c, conflict)) && Changes(db, AddConflict(db, c, conflict), {})
  {
    hide CatalogSound, BindingsSound, VersionsSound, EventsSound, HistoriesSound, MappingsSound, MaxVersion;
    var db' := AddConflict(db, c, conflict);
    forall x | x in db'.entities ensures UpToDate(db', x) { StaysUpToDate(db, db', x); }
  }

  /** The conflict tables differ, and the ids drawn; nothing else does. */
  predicate OnlyConflictsDiffer(db: Db, db': Db) {
    db' == db.(conflicts := db'.conflicts, issued := db'.issued)
  }

  lemma {:induction false} AddConflictsSound(db: Db, e: Id, candidates: seq<ConflictCandidate>, ids: seq<Id>)
    requires Sound(db) && e in db.entities && |ids| == |candidates| && FreshIds(db, ids)
    ensures
      var db' := AddConflicts(db, e, candidates, ids);
      Sound(db') && Changes(db, db', {}) && OnlyConflictsDiffer(db, db') && db'.issued == db.issued + (set c | c in ids)
    decreases |ids|
  {
    hide Sound, Consistent, Changes;
    if ids != [] {
      var n := |ids| - 1;
      AddConflictsSound(db, e, candidates[..n], ids[..n]);
      var before := AddConflicts(db, e, candidates[..n], ids[..n]);
      AddConflictSound(before, ids[n], Conflict(e, candidates[n], Open));
      SoundIsConsistent(db);
      SoundIsConsistent(before);
      SoundIsConsistent(AddConflicts(db, e, candidates, ids));
      ChangesTransitive(db, before, AddConflicts(db, e, candidates, ids), {});
    } else {
      NothingChanges(db);
    }
  }

  lemma SoundIsConsistent(db: Db)
    requires Sound(db)
    ensures Consistent(db)
  {
  }

  lemma NothingChanges(db: Db)
    ensures Changes(db, db, {})
  {
  }

  function MarkResolved(db: Db, c: Id): Db
    requires c in db.conflicts
  {
    db.(conflicts := db.conflicts[c := db.conflicts[c].(status := Resolved)])
  }

  lemma MarkResolvedSound(db: Db, c: Id)
    requires Sound(db) && c in db.conflicts
    ensures Sound(MarkResolved(db, c)) && Changes(db, MarkResolved(db, c), {})
  {
    hide CatalogSound, BindingsSound, VersionsSound, EventsSound, HistoriesSound, MappingsSound, MaxVersion;
    var db' := MarkResolved(db, c);
    forall x | x in db'.entities ensures UpToDate(db', x) { StaysUpToDate(db, db', x); }
  }
}
