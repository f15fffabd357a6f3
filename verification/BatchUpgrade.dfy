/** Moving many entities to one revision, each in a transaction of its own. */
module BatchUpgrade {
  import opened Basics
  import opened Maps
  import opened Lists
  import opened Tables
  import opened Requests
  import opened Service
  import opened SerialOrder
  import opened Effects

  datatype EntityResult = EntityResult(entity: Id, ok: bool, code: string, version: int)

  datatype BatchResult = BatchResult(processed: int, succeeded: int, failed: int, results: seq<EntityResult>)

  function ClassifyUpgradeErr(f: Failure): string {
    match f
    case NotFound => "entity_not_found"
    case InvalidUpgrade => "invalid_binding_target"
    case SchemaRejected => "schema_validation_failed"
    case _ => "error"
  }

  function ResultOf(e: Id, r: Outcome<Snapshot>): EntityResult {
    match r
    case Done(snapshot) => EntityResult(e, true, "", snapshot.version)
    case Failed(error) => EntityResult(e, false, ClassifyUpgradeErr(error), 0)
  }

  /** The entities of the family that are bound to a revision before number `no`. */
  function Behind(db: Db, family: Id, no: int): set<Id> {
    set e | e in db.entities && db.entities[e].family == family &&
            db.entities[e].revision in db.revisions && db.revisions[db.entities[e].revision].no < no
  }

  /** `result` is what a single upgrade to `revision` answers in the state `db`, and `db'` what it
      leaves. */
  ghost predicate IsUpgradeOf(db: Db, rules: SchemaRules, revision: Id, result: EntityResult, db': Db) {
    exists r: Outcome<Snapshot> ::
      UpgradeResult(db, rules, result.entity, Target(Some(revision), None), r, db') && result == ResultOf(result.entity, r)
  }

  /** `trace` shows the states between the upgrades of a batch. */
  ghost predicate IsBatch(trace: seq<Db>, rules: SchemaRules, revision: Id, ids: seq<Id>, results: seq<EntityResult>) {
    |results| == |ids| && |trace| == |ids| + 1 &&
    (forall k :: 0 <= k < |ids| ==> results[k].entity == ids[k]) &&
    forall k :: 0 <= k < |ids| ==> IsUpgradeOf(trace[k], rules, revision, results[k], trace[k + 1])
  }

  function Succeeded(results: seq<EntityResult>): (n: nat)
    ensures n <= |results|
  {
    if results == [] then 0
    else Succeeded(results[..|results| - 1]) + if results[|results| - 1].ok then 1 else 0
  }

  predicate LessId(a: Id, b: Id) {
    a < b
  }

  /** The first `limit` of the ids in ascending order. */
  ghost predicate AreFirst(ids: seq<Id>, all: set<Id>, limit: nat) {
    Ascending(ids, LessId) && |ids| == (if |all| < limit then |all| else limit) &&
    (forall i :: 0 <= i < |ids| ==> ids[i] in all) &&
    forall x, i :: x in all && x !in ids && 0 <= i < |ids| ==> ids[i] < x
  }

  method SelectFirst(all: set<Id>, limit: nat) returns (ids: seq<Id>)
    ensures AreFirst(ids, all, limit)
  {
    ids := [];
    var rest := all;
    while rest != {} && |ids| < limit
      invariant Selected(all, rest, ids) && |ids| <= limit
    {
      hide Selected, IsLeast;
      LeastExists(rest);
      var least :| least in rest && IsLeast(rest, least);
      SelectNext(all, rest, ids, least);
      ids := ids + [least];
      rest := rest - {least};
    }
  }

  /** `ids` are the least elements of `all`, and `rest` the others. */
  ghost predicate Selected(all: set<Id>, rest: set<Id>, ids: seq<Id>) {
    Ascending(ids, LessId) && (forall x :: x in all <==> x in rest || x in ids) && |ids| + |rest| == |all| &&
    forall i, x :: 0 <= i < |ids| && x in rest ==> ids[i] < x
  }

  predicate IsLeast(s: set<Id>, m: Id) {
    m in s && forall x :: x in s ==> m <= x
  }

  lemma SelectNext(all: set<Id>, rest: set<Id>, ids: seq<Id>, least: Id)
    requires Selected(all, rest, ids) && IsLeast(rest, least)
    ensures Selected(all, rest - {least}, ids + [least])
  {
  }

  lemma {:induction false} LeastExists(s: set<Id>)
    requires s != {}
    ensures exists m :: m in s && IsLeast(s, m)
  {
    hide IsLeast;
    var x := AnyOf(s);
    if s == {x} {
      LeastOfOne(x);
    } else {
      SmallerSet(s, x);
      LeastExists(s - {x});
      var m :| m in s - {x} && IsLeast(s - {x}, m);
      LeastOfMore(s, x, m);
    }
  }

  lemma LeastOfOne(x: Id)
    ensures IsLeast({x}, x)
  {
  }

  lemma LeastOfMore(s: set<Id>, x: Id, m: Id)
    requires x in s && IsLeast(s - {x}, m)
    ensures IsLeast(s, if x < m then x else m)
  {
    forall y | y in s ensures y >= if x < m then x else m {
      assert y == x || y in s - {x};
    }
  }

  ghost predicate BatchFails(db: Db, family: Id, target: Target, ids: seq<Id>, onlyBehind: bool, error: Failure) {
    NoTarget(db, family, target, error) ||
    (error == InvalidChoice && ids == [] && !onlyBehind)
  }

  /** The entities a batch works on: the first of those listed, or the first of those behind. */
  ghost predicate IsWorkList(db: Db, family: Id, no: int, ids: seq<Id>, limit: nat, list: seq<Id>) {
    if ids != [] then list == (if |ids| > limit then ids[..limit] else ids)
    else AreFirst(list, Behind(db, family, no), limit)
  }

  method BatchUpgradeEntityBinding(service: ProfileService, family: Id, target: Target, ids: seq<Id>, onlyBehind: bool, limit: int)
    returns (r: Outcome<BatchResult>, ghost trace: seq<Db>, ghost revision: Id, ghost list: seq<Id>)
    requires Sound(service.pool.db)
    modifies service.pool
    ensures Sound(service.pool.db)
    ensures r.Failed? ==> service.pool.db == old(service.pool.db) && BatchFails(old(service.pool.db), family, target, ids, onlyBehind, r.error)
    ensures r.Done? ==>
      var db := old(service.pool.db);
      var b := r.value;
      ChoiceOf(target).Some? && T.Chosen(db, family, ChoiceOf(target).value, revision) &&
      IsWorkList(db, family, db.revisions[revision].no, ids, NormalLimit(limit, 50, 200), list) &&
      IsBatch(trace, service.rules, revision, list, b.results) && trace[0] == db && trace[|list|] == service.pool.db &&
      b.processed == |b.results| == b.succeeded + b.failed && b.succeeded == Succeeded(b.results)
    ensures r.Done? ==> forall i :: 0 <= i < |list| && i < |r.value.results| && i + 1 < |trace| ==> Tells(trace[i], trace[i + 1], revision, r.value.results[i])
    ensures r.Done? ==>
      IsTarget(old(service.pool.db), family, target, revision) && Rebinds(old(service.pool.db), service.pool.db, revision, list, r.value.results) &&
      if ids != [] then |list| <= |ids| && list == ids[..|list|] && (|list| < |ids| ==> |list| == NormalLimit(limit, 50, 200))
      else onlyBehind && ListsThoseBehind(old(service.pool.db), family, old(service.pool.db).revisions[revision].no, list, NormalLimit(limit, 50, 200)) &&
           NothingFalls(old(service.pool.db), service.pool.db, family)
  {
    hide Sound, UpgradeResult, T.Chosen, NoTarget, Behind, AreFirst, IsTarget, Rebinds, ListsThoseBehind, NothingFalls, Tells;
    trace, revision, list := [], 0, [];
    var resolved := ResolveTargetRevision(service.pool.db, family, target);
    if resolved.Failed? {
      r := Failed(resolved.error);
      return;
    }
    revision := resolved.value;
    ChosenIsRevision(service.pool.db, family, ChoiceOf(target).value, resolved.value);
    var entityIds;
    if ids != [] {
      entityIds := if |ids| > NormalLimit(limit, 50, 200) then ids[..NormalLimit(limit, 50, 200)] else ids;
    } else if onlyBehind {
      entityIds := SelectFirst(Behind(service.pool.db, family, service.pool.db.revisions[resolved.value].no), NormalLimit(limit, 50, 200));
    } else {
      r := Failed(InvalidChoice);
      return;
    }
    list := entityIds;
    var out;
    ghost var before := service.pool.db;
    out, trace := UpgradeEach(service, resolved.value, entityIds);
    BatchRebinds(trace, service.rules, resolved.value, entityIds, out.results);
    if ids == [] {
      FirstBehind(before, family, before.revisions[resolved.value].no, entityIds, NormalLimit(limit, 50, 200));
      RebindingRaises(before, service.pool.db, family, resolved.value, entityIds, out.results, NormalLimit(limit, 50, 200));
    }
    r := Done(out);
  }

  /** One transaction for each entity; a failure is recorded and does not stop the batch. */
  method UpgradeEach(service: ProfileService, revision: Id, ids: seq<Id>) returns (out: BatchResult, ghost trace: seq<Db>)
    requires Sound(service.pool.db)
    modifies service.pool
    ensures Sound(service.pool.db)
    ensures IsBatch(trace, service.rules, revision, ids, out.results)
    ensures trace[0] == old(service.pool.db) && trace[|ids|] == service.pool.db
    ensures forall i :: 0 <= i < |ids| ==> Tells(trace[i], trace[i + 1], revision, out.results[i])
    ensures out.processed == |out.results| == out.succeeded + out.failed && out.succeeded == Succeeded(out.results)
  {
    hide Sound, UpgradeResult, Tells;
    out := BatchResult(|ids|, 0, 0, []);
    trace := [service.pool.db];
    for i := 0 to |ids|
      invariant Sound(service.pool.db)
      invariant IsBatch(trace, service.rules, revision, ids[..i], out.results)
      invariant trace[0] == old(service.pool.db) && trace[i] == service.pool.db
      invariant forall k :: 0 <= k < i ==> Tells(trace[k], trace[k + 1], revision, out.results[k])
      invariant out.processed == |ids| && out.succeeded == Succeeded(out.results) && out.succeeded + out.failed == i
    {
      var snapshot := service.UpgradeEntityBinding(ids[i], Target(Some(revision), None));
      var result := ResultOf(ids[i], snapshot);
      assert IsUpgradeOf(trace[i], service.rules, revision, result, service.pool.db);
      ghost var before := out.results;
      ResultTells(trace[i], service.rules, revision, result, service.pool.db);
      BatchOneMore(trace, service.rules, revision, ids, before, result, service.pool.db);
      out := if snapshot.Failed?
             then out.(failed := out.failed + 1, results := out.results + [result])
             else out.(succeeded := out.succeeded + 1, results := out.results + [result]);
      trace := trace + [service.pool.db];
      assert out.results[..|out.results| - 1] == before;
    }
    assert ids[..|ids|] == ids;
  }

  /** What a result tells: the version that the entity has now, or why there is none. */
  ghost predicate Tells(db: Db, db': Db, revision: Id, result: EntityResult) {
    if result.ok then
      result.entity in db'.entities && result.code == "" && result.version == MaxVersion(db'.versions, result.entity)
    else
      result.version == 0 &&
      result.code ==
        if result.entity !in db.entities then "entity_not_found"
        else if revision !in db.revisions || db.revisions[revision].family != db.entities[result.entity].family then "invalid_binding_target"
        else "schema_validation_failed"
  }

  lemma ResultTells(db: Db, rules: SchemaRules, revision: Id, result: EntityResult, db': Db)
    requires IsUpgradeOf(db, rules, revision, result, db')
    ensures Tells(db, db', revision, result)
  {
    hide MaxVersion, RunsAlone, RefsOf;
    var r: Outcome<Snapshot> :|
      UpgradeResult(db, rules, result.entity, Target(Some(revision), None), r, db') && result == ResultOf(result.entity, r);
    if r.Failed? && result.entity in db.entities {
      assert T.Chosen(db, db.entities[result.entity].family, ById(revision), revision) <==>
        revision in db.revisions && db.revisions[revision].family == db.entities[result.entity].family;
    }
  }

  lemma BatchOneMore(trace: seq<Db>, rules: SchemaRules, revision: Id, ids: seq<Id>, results: seq<EntityResult>, result: EntityResult, db: Db)
    requires |results| < |ids| && IsBatch(trace, rules, revision, ids[..|results|], results)
    requires result.entity == ids[|results|] && IsUpgradeOf(trace[|results|], rules, revision, result, db)
    ensures IsBatch(trace + [db], rules, revision, ids[..|results| + 1], results + [result])
  {
    hide IsUpgradeOf;
  }

  // ---------- which entities are moved ----------

  /** The entities of a list that is as long as the limit allows: each is of the family and bound to a
      revision with a lower number; they are the first such ones in the order of their ids; and when
      the list is shorter than the limit, every other entity of the family is bound to that number or
      a higher one. */
  ghost predicate ListsThoseBehind(db: Db, family: Id, no: int, list: seq<Id>, limit: nat) {
    |list| <= limit && (forall i, j :: 0 <= i < j < |list| ==> list[i] < list[j]) &&
    (forall i :: 0 <= i < |list| ==> IsBehind(db, family, no, list[i])) &&
    forall e :: IsBehind(db, family, no, e) && e !in list ==> |list| == limit && forall i :: 0 <= i < |list| ==> list[i] < e
  }

  predicate IsBehind(db: Db, family: Id, no: int, e: Id) {
    e in db.entities && db.entities[e].family == family &&
    db.entities[e].revision in db.revisions && db.revisions[db.entities[e].revision].no < no
  }

  /** The entities whose upgrade succeeded are bound to the revision, which is of their family. All
      others are bound as before, and an entity that is not in the list keeps its versions too. */
  ghost predicate Rebinds(db: Db, db': Db, revision: Id, list: seq<Id>, results: seq<EntityResult>) {
    db'.entities.Keys == db.entities.Keys && db'.revisions == db.revisions && |results| == |list| &&
    (forall i :: 0 <= i < |list| && results[i].ok ==>
      list[i] in db.entities && revision in db.revisions && db.revisions[revision].family == db.entities[list[i]].family) &&
    (forall e :: e in db.entities ==>
      db'.entities[e] == if IsMoved(list, results, e) then Entity(db.entities[e].family, revision) else db.entities[e]) &&
    forall k: VersionKey :: k.entity !in list ==>
      (k in db'.versions <==> k in db.versions) && (k in db.versions ==> db'.versions[k] == db.versions[k])
  }

  ghost predicate IsMoved(list: seq<Id>, results: seq<EntityResult>, e: Id) {
    exists i :: 0 <= i < |list| && i < |results| && list[i] == e && results[i].ok
  }

  /** No entity of the family is bound to a lower number than before. */
  ghost predicate NothingFalls(db: Db, db': Db, family: Id) {
    forall e :: e in db.entities && db.entities[e].family == family ==>
      e in db'.entities && db.entities[e].revision in db.revisions && db'.entities[e].revision in db'.revisions &&
      db'.revisions[db'.entities[e].revision].no >= db.revisions[db.entities[e].revision].no
  }

  lemma FirstBehind(db: Db, family: Id, no: int, list: seq<Id>, limit: nat)
    requires AreFirst(list, Behind(db, family, no), limit)
    ensures ListsThoseBehind(db, family, no, list, limit)
  {
    var all := Behind(db, family, no);
    forall e ensures e in all <==> IsBehind(db, family, no, e) {}
    if |list| < limit { EverythingListed(list, all, limit); }
  }

  lemma EverythingListed(list: seq<Id>, all: set<Id>, limit: nat)
    requires AreFirst(list, all, limit) && |list| < limit
    ensures forall e :: e in all ==> e in list
  {
    var listed := set e | e in list;
    DistinctCount(list, listed);
    if e :| e in all && e !in listed {
      SubsetIsSmaller(listed + {e}, all);
    }
  }

  lemma RebindingRaises(db: Db, db': Db, family: Id, revision: Id, list: seq<Id>, results: seq<EntityResult>, limit: nat)
    requires Sound(db) && revision in db.revisions && Rebinds(db, db', revision, list, results)
    requires ListsThoseBehind(db, family, db.revisions[revision].no, list, limit)
    ensures NothingFalls(db, db', family)
  {
    hide CatalogSound, VersionsSound, EventsSound, HistoriesSound, MappingsSound, ConflictsSound, UpToDate;
    forall e | e in db.entities && IsMoved(list, results, e) ensures IsBehind(db, family, db.revisions[revision].no, e) {}
  }

  lemma {:induction false} BatchRebinds(trace: seq<Db>, rules: SchemaRules, revision: Id, ids: seq<Id>, results: seq<EntityResult>)
    requires IsBatch(trace, rules, revision, ids, results) && Sound(trace[0])
    ensures Sound(trace[|ids|]) && Rebinds(trace[0], trace[|ids|], revision, ids, results)
    decreases |ids|
  {
    hide Sound, IsUpgradeOf, Rebinds;
    if ids != [] {
      var n := |ids| - 1;
      assert IsBatch(trace[..n + 1], rules, revision, ids[..n], results[..n]);
      BatchRebinds(trace[..n + 1], rules, revision, ids[..n], results[..n]);
      UpgradeBinds(trace[n], rules, revision, results[n], trace[n + 1]);
      RebindsOneMore(trace[0], trace[n], trace[n + 1], revision, ids, results);
    } else {
      NothingRebinds(trace[0], revision);
    }
  }

  lemma NothingRebinds(db: Db, revision: Id)
    ensures Rebinds(db, db, revision, [], [])
  {
  }

  lemma RebindsOneMore(db: Db, mid: Db, db': Db, revision: Id, ids: seq<Id>, results: seq<EntityResult>)
    requires |ids| == |results| > 0 && results[|ids| - 1].entity == ids[|ids| - 1]
    requires Rebinds(db, mid, revision, ids[..|ids| - 1], results[..|ids| - 1])
    requires UpgradeLeaves(mid, db', revision, results[|ids| - 1])
    ensures Rebinds(db, db', revision, ids, results)
  {
    var n := |ids| - 1;
    forall e ensures IsMoved(ids, results, e) <==> IsMoved(ids[..n], results[..n], e) || (e == ids[n] && results[n].ok) {
      if IsMoved(ids, results, e) {
        var i :| 0 <= i < |ids| && i < |results| && ids[i] == e && results[i].ok;
        if i < n { assert ids[..n][i] == e && results[..n][i].ok; }
      }
      if IsMoved(ids[..n], results[..n], e) {
        var i :| 0 <= i < n && ids[..n][i] == e && results[..n][i].ok;
        assert ids[i] == e && results[i].ok;
      }
    }
    forall e ensures e in ids <==> e in ids[..n] || e == ids[n] {
      if e in ids { var i :| 0 <= i < |ids| && ids[i] == e; assert i < n ==> ids[..n][i] == e; }
    }
    forall i | 0 <= i < |ids| && results[i].ok ensures ids[i] in db.entities && revision in db.revisions && db.revisions[revision].family == db.entities[ids[i]].family {
      if i < n { assert ids[..n][i] == ids[i] && results[..n][i] == results[i]; }
    }
  }

  // ---------- counting ----------

  /** A successful upgrade binds its entity to the revision and touches no other entity; a failed one
      changes nothing. */
  ghost predicate UpgradeLeaves(db: Db, db': Db, revision: Id, result: EntityResult) {
    db'.revisions == db.revisions &&
    (result.ok ==>
      result.entity in db.entities && revision in db.revisions && db.revisions[revision].family == db.entities[result.entity].family &&
      db'.entities == db.entities[result.entity := Entity(db.entities[result.entity].family, revision)] &&
      forall k: VersionKey :: k.entity != result.entity ==>
        (k in db'.versions <==> k in db.versions) && (k in db.versions ==> db'.versions[k] == db.versions[k])) &&
    (!result.ok ==> db' == db)
  }

  lemma UpgradeBinds(db: Db, rules: SchemaRules, revision: Id, result: EntityResult, db': Db)
    requires Sound(db) && IsUpgradeOf(db, rules, revision, result, db')
    ensures Sound(db') && UpgradeLeaves(db, db', revision, result)
  {
    hide Sound, IsCurrent, UpgradeFails, MaxVersion, Changes, TaskDoes, RunsAlone, FindsRevision;
    var e := result.entity;
    var r: Outcome<Snapshot> :| UpgradeResult(db, rules, e, Target(Some(revision), None), r, db') && result == ResultOf(e, r);
    if r.Done? {
      var task := T.Upgrade(e, ById(revision));
      AloneSound(db, rules, task, db');
      AloneDoes(db, rules, task, db');
      var found :| FindsRevision(db, task, found) && TaskDoes(db, rules, task, found, SeenNow(db, task, found).key, db');
      UpgradeTaskLeaves(db, rules, e, revision, found, SeenNow(db, task, found).key, db');
    }
  }

  lemma UpgradeTaskLeaves(db: Db, rules: SchemaRules, e: Id, revision: Id, found: Option<Id>, key: Option<string>, db': Db)
    requires FindsRevision(db, T.Upgrade(e, ById(revision)), found) && TaskDoes(db, rules, T.Upgrade(e, ById(revision)), found, key, db')
    ensures forall result: EntityResult :: result.entity == e && result.ok ==> UpgradeLeaves(db, db', revision, result)
  {
    hide MaxVersion;
    assert db.entities[e := db.entities[e]] == db.entities;
  }

  lemma UpgradeLeavesBehind(db: Db, rules: SchemaRules, revision: Id, family: Id, result: EntityResult, db': Db)
    requires Sound(db) && IsUpgradeOf(db, rules, revision, result, db')
    requires revision in db.revisions && db.revisions[revision].family == family && result.entity in Behind(db, family, db.revisions[revision].no)
    ensures Behind(db', family, db.revisions[revision].no) == Behind(db, family, db.revisions[revision].no) - if result.ok then {result.entity} else {}
  {
    hide Sound, IsUpgradeOf;
    UpgradeBinds(db, rules, revision, result, db');
  }

  /** A batch over distinct entities that are behind lowers their number by exactly the number of
      successes. */
  lemma {:induction false} BatchLowersBehind(trace: seq<Db>, rules: SchemaRules, revision: Id, family: Id, ids: seq<Id>, results: seq<EntityResult>)
    requires IsBatch(trace, rules, revision, ids, results) && Sound(trace[0]) && Ascending(ids, LessId)
    requires revision in trace[0].revisions && trace[0].revisions[revision].family == family
    requires forall i :: 0 <= i < |ids| ==> ids[i] in Behind(trace[0], family, trace[0].revisions[revision].no)
    ensures
      var no := trace[0].revisions[revision].no;
      Sound(trace[|ids|]) && trace[|ids|].revisions == trace[0].revisions &&
      |Behind(trace[|ids|], family, no)| == |Behind(trace[0], family, no)| - Succeeded(results) &&
      forall e :: e in Behind(trace[0], family, no) && e !in ids ==> e in Behind(trace[|ids|], family, no)
    decreases |ids|
  {
    hide Sound, IsUpgradeOf, Behind;
    if ids != [] {
      var n := |ids| - 1;
      assert IsBatch(trace[..n + 1], rules, revision, ids[..n], results[..n]);
      BatchLowersBehind(trace[..n + 1], rules, revision, family, ids[..n], results[..n]);
      assert ids[n] !in ids[..n];
      UpgradeLeavesBehind(trace[n], rules, revision, family, results[n], trace[n + 1]);
      UpgradeBinds(trace[n], rules, revision, results[n], trace[n + 1]);
    }
  }

  /** `db'` is what an only-behind batch with limit `limit` makes of `db` when no document is
      rejected. */
  ghost predicate IsCleanBatch(db: Db, rules: SchemaRules, revision: Id, family: Id, limit: nat, db': Db) {
    revision in db.revisions && db.revisions[revision].family == family &&
    exists trace, ids, results ::
      AreFirst(ids, Behind(db, family, db.revisions[revision].no), limit) && IsBatch(trace, rules, revision, ids, results) &&
      trace[0] == db && trace[|ids|] == db' && Succeeded(results) == |results|
  }

  lemma CleanBatch(db: Db, rules: SchemaRules, revision: Id, family: Id, limit: nat, db': Db)
    requires Sound(db) && IsCleanBatch(db, rules, revision, family, limit, db')
    ensures
      var n := |Behind(db, family, db.revisions[revision].no)|;
      Sound(db') && db'.revisions == db.revisions &&
      |Behind(db', family, db.revisions[revision].no)| == if n < limit then 0 else n - limit
  {
    hide Sound, IsUpgradeOf, Behind;
    var trace, ids, results :|
      AreFirst(ids, Behind(db, family, db.revisions[revision].no), limit) && IsBatch(trace, rules, revision, ids, results) &&
      trace[0] == db && trace[|ids|] == db' && Succeeded(results) == |results|;
    BatchLowersBehind(trace, rules, revision, family, ids, results);
  }

  /** When no document is rejected, `n` entities that are behind are all moved after `k` batches
      exactly when `k` times the limit reaches `n`: ceil(n / limit) batches are enough and needed. */
  lemma {:induction false} BatchesNeeded(dbs: seq<Db>, rules: SchemaRules, revision: Id, family: Id, limit: int, k: nat)
    requires k < |dbs| && Sound(dbs[0]) && revision in dbs[0].revisions
    requires forall i :: 0 <= i < k ==> IsCleanBatch(dbs[i], rules, revision, family, NormalLimit(limit, 50, 200), dbs[i + 1])
    ensures
      var no := dbs[0].revisions[revision].no;
      var n := |Behind(dbs[0], family, no)|;
      Sound(dbs[k]) && dbs[k].revisions == dbs[0].revisions &&
      |Behind(dbs[k], family, no)| == (if n < k * NormalLimit(limit, 50, 200) then 0 else n - k * NormalLimit(limit, 50, 200)) &&
      (Behind(dbs[k], family, no) == {} <==> n <= k * NormalLimit(limit, 50, 200))
  {
    hide Sound, IsCleanBatch, Behind;
    if k > 0 {
      BatchesNeeded(dbs, rules, revision, family, limit, k - 1);
      CleanBatch(dbs[k - 1], rules, revision, family, NormalLimit(limit, 50, 200), dbs[k]);
      assert k * NormalLimit(limit, 50, 200) == (k - 1) * NormalLimit(limit, 50, 200) + NormalLimit(limit, 50, 200);
    }
  }
}
