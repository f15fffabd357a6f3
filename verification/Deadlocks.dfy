/** How transactions wait for each other's rows, and which circles of waiting there can be. */
module Deadlocks {
  import opened Maps
  import opened Basics
  import opened Tables
  import opened CatalogStatements
  import opened Transactions

  /** Transaction `i` may not get on before `j` ends: `j` has a row that `i` locks next, or one of
      the rows that the next writing statement of `i` needs. */
  ghost predicate WaitsFor(s: State, i: nat, j: nat) {
    i in s.txs && j in s.txs && i != j &&
    var tx := s.txs[i];
    if !AllLocked(tx) then WaitsForLock(s.db, tx, s.txs[j])
    else exists row :: row in Wants(s.db, tx) && Keeps(s.txs[j], row, tx.task.DeleteFamily?)
  }

  predicate WaitsForLock(db: Db, tx: Tx, other: Tx) {
    tx.held < |Locks(tx.task)| && RowExists(db, tx.task, Locks(tx.task)[tx.held]) &&
    Blocks(other, tx.task, Locks(tx.task)[tx.held])
  }

  ghost predicate Waits(s: State, i: nat) {
    exists j :: WaitsFor(s, i, j)
  }

  /** Everybody in `circle` waits for somebody in it. */
  ghost predicate IsCircle(s: State, circle: set<nat>) {
    circle != {} && forall i :: i in circle ==> WaitsInto(s, i, circle)
  }

  ghost predicate WaitsInto(s: State, i: nat, circle: set<nat>) {
    exists j :: j in circle && WaitsFor(s, i, j)
  }

  ghost predicate Deadlock(s: State) {
    exists circle :: IsCircle(s, circle)
  }

  // ---------- the two kinds of circle ----------

  /** A publication that holds the draft and is about to insert, for which it needs the family. */
  predicate InsertsRevision(tx: Tx, f: Id) {
    tx.task == Publish(f) && AllLocked(tx) && tx.seen.draft.Some? && tx.seen.next.Some? && FamilyRow(f) !in tx.claims
  }

  /** A deletion that has the family and its revisions and has come to the draft. */
  ghost predicate DeletesDraft(db: Db, tx: Tx, f: Id) {
    tx.task == DeleteFamily(f) && FamilyRow(f) in tx.claims && RevisionsLeft(db, tx, f) == {} && !HasEntities(db, f) &&
    DraftRow(f) !in tx.claims
  }

  /** A publication and a deletion of one family each have the row that the other needs. */
  ghost predicate PublishMeetsDelete(s: State) {
    exists p, d, f :: p in s.txs && d in s.txs && InsertsRevision(s.txs[p], f) && DeletesDraft(s.db, s.txs[d], f)
  }

  /** A deletion that has the family and its revisions and has come upon entities. */
  ghost predicate MeetsEntities(db: Db, tx: Tx) {
    tx.task.DeleteFamily? && FamilyRow(tx.task.family) in tx.claims && RevisionsLeft(db, tx, tx.task.family) == {} &&
    HasEntities(db, tx.task.family)
  }

  /** A merge that has one of its entities. */
  predicate HalfLocked(tx: Tx) {
    tx.task.Merge? && tx.held == 1
  }

  /** An upgrade that is about to bind its entity, for which it needs the revision. */
  predicate BindsRevision(db: Db, tx: Tx) {
    IsMoving(db, tx) && AllLocked(tx) && RevisionRow(db.entities[tx.task.entity].family, tx.seen.revision.value) !in tx.claims
  }

  ghost predicate IsLink(s: State, i: nat) {
    i in s.txs && (MeetsEntities(s.db, s.txs[i]) || HalfLocked(s.txs[i]) || BindsRevision(s.db, s.txs[i]))
  }

  /** A circle of deletions that have come upon entities, upgrades that need a revision which is
      being deleted, and merges between them. */
  ghost predicate DeletionCircle(s: State) {
    exists circle :: IsCircle(s, circle) && AllLinks(s, circle)
  }

  ghost predicate AllLinks(s: State, circle: set<nat>) {
    forall i :: i in circle ==> IsLink(s, i)
  }

  // ---------- who waits while others wait for it ----------

  lemma TxOf(s: State, i: nat)
    requires Inv(s) && i in s.txs
    ensures LocksHeld(s.db, s.txs[i]) && ClaimsFit(s.db, s.txs[i]) && WellFormedTask(s.txs[i].task)
    ensures AllLocked(s.txs[i]) || s.txs[i].claims == {}
  {
    hide Sound, SeenHolds, ConflictStands, Exclusive, ClaimsRespected;
    assert TxSound(s.db, s.txs[i]);
  }

  /** Two deletions of one family, or a deletion and a foreign key, never both have the family. */
  lemma OneHasTheFamily(s: State, i: nat, j: nat, f: Id)
    requires Inv(s) && i in s.txs && j in s.txs && i != j && s.txs[i].task.DeleteFamily?
    requires FamilyRow(f) in s.txs[i].claims
    ensures FamilyRow(f) !in s.txs[j].claims
  {
    hide Sound, TxSound, Exclusive;
    assert !Keeps(s.txs[j], FamilyRow(f), true);
  }

  lemma EntityIsNoFamily(s: State, x: Id)
    requires Inv(s) && x in s.db.entities
    ensures x !in s.db.drafts
  {
    hide BindingsSound, VersionsSound, EventsSound, HistoriesSound, MappingsSound, ConflictsSound, UpToDate, TxSound, Exclusive, ClaimsRespected, RevisionsNumbered, OneRevisionPerNumber;
  }

  /** Who has locked an entity and waits is a merge or an upgrade. */
  lemma EntityHolder(s: State, j: nat, e: Id)
    requires Inv(s) && j in s.txs && e in s.db.entities && HasLocked(s.txs[j], e) && Waits(s, j)
    ensures IsLink(s, j) && !s.txs[j].task.DeleteFamily?
  {
    hide Inv, Keeps, Blocks;
    TxOf(s, j);
    EntityIsNoFamily(s, e);
    var tx := s.txs[j];
    assert e in Locks(tx.task)[..tx.held] && RowExists(s.db, tx.task, e);
    var k :| WaitsFor(s, j, k);
  }

  /** Who has claimed a row of a family as a deletion and waits has come upon entities or to the
      draft: the revisions do not keep it waiting. */
  lemma DeletionHolder(s: State, d: nat, k: nat, f: Id)
    requires Inv(s) && d in s.txs && s.txs[d].task == DeleteFamily(f) && s.txs[d].claims != {}
    requires WaitsFor(s, d, k) && Waits(s, k)
    ensures MeetsEntities(s.db, s.txs[d]) || PublishMeetsDelete(s)
  {
    hide Inv, LocksHeld, Blocks;
    TxOf(s, d);
    TxOf(s, k);
    var (tx, other) := (s.txs[d], s.txs[k]);
    OneHasTheFamily(s, d, k, f);
    var row :| row in Wants(s.db, tx) && Keeps(other, row, true);
    if RevisionsLeft(s.db, tx, f) != {} {
      RevisionHolderMoves(s, d, k, f, row);
    } else if !HasEntities(s.db, f) {
      DraftHolder(s, d, k, f);
    }
  }

  /** A foreign key that has a revision of a family which is being deleted is an upgrade's, and it
      has all it needs. */
  lemma RevisionHolderMoves(s: State, d: nat, k: nat, f: Id, row: Row)
    requires Inv(s) && d in s.txs && k in s.txs && d != k && s.txs[d].task == DeleteFamily(f) && FamilyRow(f) in s.txs[d].claims
    requires row.RevisionRow? && row.family == f && row in s.txs[k].claims
    ensures !Waits(s, k)
  {
    hide Inv, LocksHeld, Keeps, Blocks;
    TxOf(s, k);
    OneHasTheFamily(s, d, k, f);
    assert s.txs[k].task.Upgrade?;
    assert Wants(s.db, s.txs[k]) == {};
    assert AllLocked(s.txs[k]);
  }

  /** Who has the draft that a deletion has come to, and waits, is a publication of the family. */
  lemma DraftHolder(s: State, d: nat, k: nat, f: Id)
    requires Inv(s) && d in s.txs && k in s.txs && d != k && DeletesDraft(s.db, s.txs[d], f)
    requires Keeps(s.txs[k], DraftRow(f), true) && Waits(s, k)
    ensures PublishMeetsDelete(s)
  {
    hide Inv, LocksHeld, Blocks;
    TxOf(s, k);
    OneHasTheFamily(s, d, k, f);
    var m :| WaitsFor(s, k, m);
    var tx := s.txs[k];
    assert HasLocked(tx, f);
    assert InsertsRevision(tx, f);
  }

  /** Whoever in a circle waits for an upgrade, a merge or a deletion waits for a link of it. */
  lemma LinkWaitsForLink(s: State, i: nat, j: nat, k: nat)
    requires Inv(s) && IsLink(s, i) && WaitsFor(s, i, j) && WaitsFor(s, j, k) && Waits(s, k) && !PublishMeetsDelete(s)
    ensures IsLink(s, j)
  {
    hide Inv, LocksHeld;
    TxOf(s, i);
    TxOf(s, j);
    var (tx, other) := (s.txs[i], s.txs[j]);
    if MeetsEntities(s.db, tx) {
      var row :| row in Wants(s.db, tx) && Keeps(other, row, true);
      EntityHolder(s, j, row.entity);
    } else if HalfLocked(tx) {
      EntityHolder(s, j, Locks(tx.task)[1]);
    } else {
      var row :| row in Wants(s.db, tx) && Keeps(other, row, false);
      DeletionHolder(s, j, k, row.family);
    }
  }

  /** In a circle there is a link not far behind anybody. */
  lemma LinkBehind(s: State, i: nat, j: nat, k: nat, l: nat)
    requires Inv(s) && WaitsFor(s, i, j) && WaitsFor(s, j, k) && WaitsFor(s, k, l) && Waits(s, l) && !PublishMeetsDelete(s)
    ensures IsLink(s, j) || IsLink(s, k)
  {
    hide Inv, LocksHeld, Wants;
    TxOf(s, j);
    var other := s.txs[j];
    HasSomething(s, i, j);
    if other.task.DeleteFamily? {
      DeletionHolder(s, j, k, other.task.family);
    } else if other.task.Publish? {
      PublicationWaits(s, j, k);
      DeletionHolder(s, k, l, other.task.family);
    } else if other.task.Create? {
      CreationMoves(s, j);
    } else {
      OthersAreLinks(s, j, k);
    }
  }

  lemma HasSomething(s: State, i: nat, j: nat)
    requires WaitsFor(s, i, j)
    ensures j in s.txs && (s.txs[j].held > 0 || s.txs[j].claims != {})
  {
    hide Wants;
  }

  lemma PublicationWaits(s: State, p: nat, k: nat)
    requires Inv(s) && WaitsFor(s, p, k) && s.txs[p].task.Publish? && (s.txs[p].held > 0 || s.txs[p].claims != {})
    ensures k in s.txs && s.txs[k].task == DeleteFamily(s.txs[p].task.family) && FamilyRow(s.txs[p].task.family) in s.txs[k].claims
  {
    hide Inv, LocksHeld, Blocks;
    TxOf(s, p);
    TxOf(s, k);
  }

  /** A creation that has its family needs only a revision, which nobody deletes meanwhile. */
  lemma CreationMoves(s: State, i: nat)
    requires Inv(s) && i in s.txs && s.txs[i].task.Create? && s.txs[i].claims != {}
    ensures !Waits(s, i)
  {
    hide Inv, LocksHeld, Blocks;
    TxOf(s, i);
    var f := s.txs[i].task.family;
    forall j | j in s.txs && j != i ensures !WaitsFor(s, i, j) {
      TxOf(s, j);
      if s.txs[j].task.DeleteFamily? && FamilyRow(f) in s.txs[j].claims { OneHasTheFamily(s, j, i, f); }
    }
  }

  lemma OthersAreLinks(s: State, j: nat, k: nat)
    requires Inv(s) && WaitsFor(s, j, k) && (s.txs[j].held > 0 || s.txs[j].claims != {})
    requires var task := s.txs[j].task; !task.DeleteFamily? && !task.Publish? && !task.Create?
    ensures IsLink(s, j)
  {
    hide Inv, Keeps, Blocks;
    TxOf(s, j);
  }

  // ---------- the theorem ----------

  /** Transactions wait for each other in a circle exactly when a publication and a deletion of one
      family meet, each having the row the other needs, or deletions that have come upon entities
      wait in a circle through merges and upgrades. Creations, updates, resolutions and saved drafts
      are in no circle of their own. */
  lemma CirclesAre(s: State)
    requires Inv(s)
    ensures Deadlock(s) <==> PublishMeetsDelete(s) || DeletionCircle(s)
  {
    hide Inv, WaitsFor;
    if PublishMeetsDelete(s) { MeetingIsCircle(s); }
    if Deadlock(s) && !PublishMeetsDelete(s) {
      var circle :| IsCircle(s, circle);
      LinksAreCircle(s, circle);
    }
  }

  lemma MeetingIsCircle(s: State)
    requires Inv(s) && PublishMeetsDelete(s)
    ensures Deadlock(s)
  {
    hide Inv, WaitsFor, InsertsRevision, DeletesDraft;
    var p, d, f :| p in s.txs && d in s.txs && InsertsRevision(s.txs[p], f) && DeletesDraft(s.db, s.txs[d], f);
    TheyMeet(s, p, d, f);
    TwoAreCircle(s, p, d);
  }

  lemma TheyMeet(s: State, p: nat, d: nat, f: Id)
    requires Inv(s) && p in s.txs && d in s.txs && InsertsRevision(s.txs[p], f) && DeletesDraft(s.db, s.txs[d], f)
    ensures WaitsFor(s, p, d) && WaitsFor(s, d, p)
  {
    hide Inv, Blocks;
    TxOf(s, p);
    TxOf(s, d);
    assert Locks(s.txs[p].task)[..s.txs[p].held] == Locks(s.txs[p].task) == [f];
    assert FamilyRow(f) in Wants(s.db, s.txs[p]) && Keeps(s.txs[d], FamilyRow(f), false);
    assert DraftRow(f) in {DraftRow(f)} - s.txs[d].claims;
    assert DraftRow(f) in Wants(s.db, s.txs[d]);
    assert Keeps(s.txs[p], DraftRow(f), true);
  }

  lemma TwoAreCircle(s: State, i: nat, j: nat)
    requires WaitsFor(s, i, j) && WaitsFor(s, j, i)
    ensures IsCircle(s, {i, j})
  {
    hide WaitsFor;
    assert WaitsInto(s, i, {i, j}) && WaitsInto(s, j, {i, j});
  }

  lemma Blocker(s: State, i: nat, circle: set<nat>) returns (j: nat)
    requires IsCircle(s, circle) && i in circle
    ensures j in circle && WaitsFor(s, i, j) && Waits(s, j)
  {
    hide WaitsFor;
    assert WaitsInto(s, i, circle);
    j :| j in circle && WaitsFor(s, i, j);
    assert WaitsInto(s, j, circle);
  }

  lemma LinksAreCircle(s: State, circle: set<nat>)
    requires Inv(s) && IsCircle(s, circle) && !PublishMeetsDelete(s)
    ensures DeletionCircle(s)
  {
    hide Inv, WaitsFor, Waits, IsLink, PublishMeetsDelete, IsCircle;
    var links := set i | i in circle && IsLink(s, i);
    forall i | i in links ensures WaitsInto(s, i, links) {
      var j := Blocker(s, i, circle);
      var k := Blocker(s, j, circle);
      LinkWaitsForLink(s, i, j, k);
    }
    NotEmpty(s, circle);
    var i := AnyOf(circle);
    var j := Blocker(s, i, circle);
    var k := Blocker(s, j, circle);
    var l := Blocker(s, k, circle);
    LinkBehind(s, i, j, k, l);
    assert j in links || k in links;
    LinksAreAll(s, links);
  }

  lemma NotEmpty(s: State, circle: set<nat>)
    requires IsCircle(s, circle)
    ensures circle != {}
  {
  }

  lemma LinksAreAll(s: State, links: set<nat>)
    requires links != {} && forall i :: i in links ==> IsLink(s, i) && WaitsInto(s, i, links)
    ensures DeletionCircle(s)
  {
    hide IsLink, WaitsInto;
    assert IsCircle(s, links) && AllLinks(s, links);
  }

  // ---------- without deletions ----------

  /** The entity that a merge locks last. */
  function Wanted(tx: Tx): Id {
    if |Locks(tx.task)| == 2 then Locks(tx.task)[1] else 0
  }

  /** Merges lock in ascending order, so they alone are no circle: every circle of links has a
      deletion in it, and an upgrade that waits for one. */
  lemma CircleHasDeletion(s: State, circle: set<nat>)
    requires Inv(s) && IsCircle(s, circle) && AllLinks(s, circle)
    ensures exists u, d :: u in circle && d in circle && BindsRevision(s.db, s.txs[u]) && MeetsEntities(s.db, s.txs[d]) && WaitsFor(s, u, d)
  {
    hide Inv, WaitsFor, MeetsEntities, BindsRevision;
    CircleHasUpgrade(s, circle);
    var u :| u in circle && BindsRevision(s.db, s.txs[u]);
    assert WaitsInto(s, u, circle);
    var d :| d in circle && WaitsFor(s, u, d);
    UpgradeWaitsForDeletion(s, u, d);
  }

  lemma UpgradeWaitsForDeletion(s: State, u: nat, d: nat)
    requires Inv(s) && WaitsFor(s, u, d) && BindsRevision(s.db, s.txs[u]) && IsLink(s, d)
    ensures MeetsEntities(s.db, s.txs[d])
  {
    hide Inv, LocksHeld;
    TxOf(s, d);
  }

  lemma CircleHasUpgrade(s: State, circle: set<nat>)
    requires Inv(s) && IsCircle(s, circle) && AllLinks(s, circle)
    ensures exists u :: u in circle && BindsRevision(s.db, s.txs[u])
  {
    hide Inv, WaitsFor, Waits, MeetsEntities, BindsRevision, IsCircle, HalfLocked, Wanted;
    NotEmpty(s, circle);
    var first := Blocker(s, AnyOf(circle), circle);
    if forall i :: i in circle ==> !BindsRevision(s.db, s.txs[i]) {
      WaitedForIsMerge(s, AnyOf(circle), first);
      var top := WantsMost(s, circle, first);
      var next := Blocker(s, top, circle);
      WaitedForIsMerge(s, top, next);
      MergeWantsMore(s, top, next);
    }
  }

  /** The merge in the circle whose last entity is the greatest. */
  lemma WantsMost(s: State, circle: set<nat>, first: nat) returns (top: nat)
    requires first in circle && first in s.txs && HalfLocked(s.txs[first]) && circle <= s.txs.Keys
    ensures top in circle && HalfLocked(s.txs[top])
    ensures forall i :: i in circle && HalfLocked(s.txs[i]) ==> Wanted(s.txs[i]) <= Wanted(s.txs[top])
  {
    hide HalfLocked, Wanted;
    var merges := set i | i in circle && HalfLocked(s.txs[i]);
    var wanted: set<int> := set i | i in merges :: Wanted(s.txs[i]) as int;
    assert first in merges && Wanted(s.txs[first]) as int in wanted;
    MaxExists(wanted);
    var m :| IsMax(wanted, m);
    top :| top in merges && Wanted(s.txs[top]) as int == m;
    forall i | i in circle && HalfLocked(s.txs[i]) ensures Wanted(s.txs[i]) <= Wanted(s.txs[top]) {
      assert i in merges && Wanted(s.txs[i]) as int in wanted;
    }
  }

  lemma WaitedForIsMerge(s: State, i: nat, j: nat)
    requires Inv(s) && WaitsFor(s, i, j) && IsLink(s, i) && IsLink(s, j)
    requires !BindsRevision(s.db, s.txs[i]) && !BindsRevision(s.db, s.txs[j])
    ensures HalfLocked(s.txs[j])
  {
    hide Inv, LocksHeld;
    TxOf(s, i);
    TxOf(s, j);
  }

  lemma MergeWantsMore(s: State, i: nat, j: nat)
    requires Inv(s) && WaitsFor(s, i, j) && HalfLocked(s.txs[i]) && HalfLocked(s.txs[j])
    ensures Wanted(s.txs[j]) > Wanted(s.txs[i])
  {
    hide Inv, LocksHeld, Wants, Keeps;
    TxOf(s, i);
    TxOf(s, j);
  }

  /** While no deletion of a family has the family's row, row locks and foreign keys never block
      everybody: some open transaction waits for nobody. */
  lemma SomeTransactionMoves(s: State)
    requires Inv(s) && s.txs.Keys != {}
    requires forall d, f :: d in s.txs && s.txs[d].task == DeleteFamily(f) ==> FamilyRow(f) !in s.txs[d].claims
    ensures exists i :: i in s.txs && !Waits(s, i)
  {
    hide Inv, WaitsFor;
    if forall i :: i in s.txs ==> Waits(s, i) {
      AllWaiting(s);
      CirclesAre(s);
      if DeletionCircle(s) {
        var circle :| IsCircle(s, circle) && AllLinks(s, circle);
        CircleHasDeletion(s, circle);
      }
    }
  }

  lemma WaitedForIsThere(s: State, i: nat, j: nat)
    requires WaitsFor(s, i, j)
    ensures j in s.txs
  {
  }

  lemma AllWaiting(s: State)
    requires s.txs.Keys != {} && forall i :: i in s.txs ==> Waits(s, i)
    ensures Deadlock(s)
  {
    hide WaitsFor;
    forall i | i in s.txs ensures WaitsInto(s, i, s.txs.Keys) {
      var j :| WaitsFor(s, i, j);
      WaitedForIsThere(s, i, j);
    }
    assert IsCircle(s, s.txs.Keys);
  }

  /** The shortest circle of the second kind: an upgrade of an entity to a revision that a deletion
      has already reached, which now comes upon that entity. */
  lemma UpgradeMeetsDelete(s: State, u: nat, d: nat)
    requires Inv(s) && u in s.txs && d in s.txs && BindsRevision(s.db, s.txs[u]) && MeetsEntities(s.db, s.txs[d])
    requires s.db.entities[s.txs[u].task.entity].family == s.txs[d].task.family
    requires RevisionRow(s.txs[d].task.family, s.txs[u].seen.revision.value) in s.txs[d].claims
    ensures DeletionCircle(s) && Deadlock(s)
  {
    hide Inv, WaitsFor, BindsRevision, MeetsEntities;
    UpgradeAndDeletionWait(s, u, d);
    TwoAreCircle(s, u, d);
    LinksAreAll(s, {u, d}) by { hide IsLink; assert IsCircle(s, {u, d}); BothAreLinks(s, u, d); }
  }

  lemma BothAreLinks(s: State, u: nat, d: nat)
    requires u in s.txs && d in s.txs && BindsRevision(s.db, s.txs[u]) && MeetsEntities(s.db, s.txs[d])
    ensures IsLink(s, u) && IsLink(s, d)
  {
  }

  lemma UpgradeAndDeletionWait(s: State, u: nat, d: nat)
    requires Inv(s) && u in s.txs && d in s.txs && BindsRevision(s.db, s.txs[u]) && MeetsEntities(s.db, s.txs[d])
    requires s.db.entities[s.txs[u].task.entity].family == s.txs[d].task.family
    requires RevisionRow(s.txs[d].task.family, s.txs[u].seen.revision.value) in s.txs[d].claims
    ensures WaitsFor(s, u, d) && WaitsFor(s, d, u)
  {
    hide Inv, Blocks, RevisionsLeft;
    TxOf(s, u);
    TxOf(s, d);
    var (e, f) := (s.txs[u].task.entity, s.txs[d].task.family);
    assert Locks(s.txs[u].task)[..s.txs[u].held] == Locks(s.txs[u].task) == [e];
    assert EntityRow(e) in EntityRows(s.db, f);
    assert EntityRow(e) in Wants(s.db, s.txs[d]) && Keeps(s.txs[u], EntityRow(e), true);
    assert RevisionRow(f, s.txs[u].seen.revision.value) in Wants(s.db, s.txs[u]);
    assert Keeps(s.txs[d], RevisionRow(f, s.txs[u].seen.revision.value), false);
  }
}
