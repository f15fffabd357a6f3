/** From a stored version to the broker: the transactions' events are the rows that the workers
    deliver. */
module Announcements {
  import opened Basics
  import opened Tables
  import opened Requests
  import T = Transactions
  import O = OutboxWorker

  /** What is said about a version. How a message is written as JSON is a parameter. */
  datatype Message = Message(version: VersionKey, event: Event, occurredAt: int)

  type Encoding = Message -> string

  /** The profile tables with their transactions, the outbox with its workers, and which row holds
      which version's event. */
  datatype State = State(store: T.State, outbox: O.State, rowOf: map<VersionKey, Id>)

  ghost predicate Carries(encode: Encoding, payload: string, k: VersionKey, event: Event) {
    exists t :: payload == encode(Message(k, event, t))
  }

  // ---------- the steps ----------

  datatype New = New(row: Id, message: Message)

  /** The rows of the events that are no longer there. */
  function Gone(rowOf: map<VersionKey, Id>, events: map<VersionKey, Event>): set<Id> {
    set k | k in rowOf && k !in events :: rowOf[k]
  }

  function Remaining(rowOf: map<VersionKey, Id>, events: map<VersionKey, Event>): map<VersionKey, Id> {
    map k | k in rowOf && k in events :: rowOf[k]
  }

  function AsInsert(encode: Encoding, entry: New, createdAt: int): O.Step {
    O.Insert(entry.row, encode(entry.message), createdAt)
  }

  function AddRow(o: O.State, encode: Encoding, entry: New, createdAt: int): O.State {
    o.(rows := o.rows[entry.row := O.NewRow(encode(entry.message), createdAt)], issued := o.issued + {entry.row})
  }

  function AddRows(o: O.State, encode: Encoding, news: seq<New>, createdAt: int): O.State
    decreases |news|
  {
    if news == [] then o
    else AddRow(AddRows(o, encode, news[..|news| - 1], createdAt), encode, news[|news| - 1], createdAt)
  }

  function AddNames(rowOf: map<VersionKey, Id>, news: seq<New>): map<VersionKey, Id>
    decreases |news|
  {
    if news == [] then rowOf
    else
      var last := news[|news| - 1];
      AddNames(rowOf, news[..|news| - 1])[last.message.version := last.row]
  }

  /** One row under a fresh id for each of the events whose versions are not known yet. */
  ghost predicate AreNews(issued: set<Id>, known: set<VersionKey>, events: map<VersionKey, Event>, news: seq<New>) {
    AreFresh(issued, known, events, news) &&
    forall k :: k in events && k !in known ==> Mentions(news, k)
  }

  ghost predicate AreFresh(issued: set<Id>, known: set<VersionKey>, events: map<VersionKey, Event>, news: seq<New>) {
    (forall i :: 0 <= i < |news| ==> IsNew(issued, known, events, news[i])) &&
    forall i, j :: 0 <= i < j < |news| ==> news[i].row != news[j].row && news[i].message.version != news[j].message.version
  }

  predicate IsNew(issued: set<Id>, known: set<VersionKey>, events: map<VersionKey, Event>, entry: New) {
    var k := entry.message.version;
    entry.row !in issued && k !in known && k in events && entry.message.event == events[k]
  }

  ghost predicate Mentions(news: seq<New>, k: VersionKey) {
    exists i :: 0 <= i < |news| && news[i].message.version == k
  }

  ghost predicate Draws(news: seq<New>, id: Id) {
    exists i :: 0 <= i < |news| && news[i].row == id
  }

  /** A step of the transactions. The rows of new events appear with them; those of deleted entities
      go with them, for which the deletion waits until no worker holds them. */
  ghost predicate StoreStep(s: State, rules: SchemaRules, encode: Encoding, news: seq<New>, createdAt: int, s': State) {
    var after := s'.store.db.outbox;
    var gone := Gone(s.rowOf, after);
    T.Next(s.store, rules, s'.store) && AreNews(s.outbox.issued, s.store.db.outbox.Keys, after, news) &&
    (forall id :: id in gone ==> !O.Locked(s.outbox, id)) &&
    s'.outbox == AddRows(s.outbox.(rows := s.outbox.rows - gone), encode, news, createdAt) &&
    s'.rowOf == AddNames(Remaining(s.rowOf, after), news)
  }

  /** A step of a worker. */
  ghost predicate WorkerStep(s: State, cfg: O.Config, step: O.Step, s': State) {
    !step.Insert? && !step.Delete? && O.IsStep(s.outbox, cfg, step, s'.outbox) && s' == s.(outbox := s'.outbox)
  }

  ghost predicate Next(s: State, rules: SchemaRules, cfg: O.Config, encode: Encoding, s': State) {
    (exists news, createdAt :: StoreStep(s, rules, encode, news, createdAt, s')) ||
    exists step :: WorkerStep(s, cfg, step, s')
  }

  ghost predicate IsRun(run: seq<State>, rules: SchemaRules, cfg: O.Config, encode: Encoding) {
    run != [] && run[0] == State(T.State(EmptyDb(), map[]), O.Initial(), map[]) &&
    forall k :: 0 <= k < |run| - 1 ==> Next(run[k], rules, cfg, encode, run[k + 1])
  }

  // ---------- the workers see a run of their own ----------

  /** A run of the outbox from the empty table to `o`. */
  ghost predicate LeadsTo(states: seq<O.State>, cfg: O.Config, steps: seq<O.Step>, o: O.State) {
    O.IsRun(states, cfg, steps) && states[0] == O.Initial() && states[|steps|] == o
  }

  ghost predicate Reachable(cfg: O.Config, o: O.State) {
    exists states, steps :: LeadsTo(states, cfg, steps, o)
  }

  lemma OneStepFurther(cfg: O.Config, o: O.State, step: O.Step, o': O.State)
    requires Reachable(cfg, o) && O.IsStep(o, cfg, step, o')
    ensures Reachable(cfg, o')
  {
    var states, steps :| LeadsTo(states, cfg, steps, o);
    Extended(states, cfg, steps, o, step, o');
  }

  lemma Extended(states: seq<O.State>, cfg: O.Config, steps: seq<O.Step>, o: O.State, step: O.Step, o': O.State)
    requires LeadsTo(states, cfg, steps, o) && O.IsStep(o, cfg, step, o')
    ensures LeadsTo(states + [o'], cfg, steps + [step], o')
  {
    hide O.IsStep;
  }

  lemma {:induction false} RowsReachable(o: O.State, cfg: O.Config, encode: Encoding, news: seq<New>, createdAt: int)
    requires Reachable(cfg, o) && forall i :: 0 <= i < |news| ==> news[i].row !in o.issued
    requires forall i, j :: 0 <= i < j < |news| ==> news[i].row != news[j].row
    ensures Reachable(cfg, AddRows(o, encode, news, createdAt)) && AddRows(o, encode, news, createdAt).log == o.log
    ensures forall id :: id in AddRows(o, encode, news, createdAt).issued ==> id in o.issued || Draws(news, id)
    decreases |news|
  {
    hide Reachable;
    if news != [] {
      var n := |news| - 1;
      RowsReachable(o, cfg, encode, news[..n], createdAt);
      var before := AddRows(o, encode, news[..n], createdAt);
      assert !Draws(news[..n], news[n].row);
      OneStepFurther(cfg, before, AsInsert(encode, news[n], createdAt), AddRow(before, encode, news[n], createdAt));
      forall id | id in AddRows(o, encode, news, createdAt).issued ensures id in o.issued || Draws(news, id) {
        if Draws(news[..n], id) {
          var i :| 0 <= i < n && news[..n][i].row == id;
          assert news[i].row == id;
        }
      }
    }
  }

  // ---------- what every state keeps ----------

  ghost predicate Names(rowOf: map<VersionKey, Id>, id: Id) {
    exists k :: k in rowOf && rowOf[k] == id
  }

  /** Each named row carries its version's event; no row has two names, and none has no name. */
  ghost predicate Linked(encode: Encoding, events: map<VersionKey, Event>, rowOf: map<VersionKey, Id>, rows: map<Id, O.Row>) {
    (forall k :: k in rowOf ==> k in events && rowOf[k] in rows && Carries(encode, rows[rowOf[k]].payload, k, events[k])) &&
    (forall k, l :: k in rowOf && l in rowOf && rowOf[k] == rowOf[l] ==> k == l) &&
    forall id :: id in rows ==> Names(rowOf, id)
  }

  ghost predicate Inv(s: State, cfg: O.Config, encode: Encoding) {
    T.Inv(s.store) && Reachable(cfg, s.outbox) && s.rowOf.Keys == s.store.db.outbox.Keys &&
    Linked(encode, s.store.db.outbox, s.rowOf, s.outbox.rows)
  }

  lemma LinkedOneMore(encode: Encoding, events: map<VersionKey, Event>, rowOf: map<VersionKey, Id>, rows: map<Id, O.Row>, entry: New, createdAt: int)
    requires Linked(encode, events, rowOf, rows) && entry.row !in rows && entry.message.version !in rowOf
    requires entry.message.version in events && entry.message.event == events[entry.message.version]
    ensures Linked(encode, events, rowOf[entry.message.version := entry.row], rows[entry.row := O.NewRow(encode(entry.message), createdAt)])
  {
    hide Carries;
    var rowOf' := rowOf[entry.message.version := entry.row];
    CarriesItsOwn(encode, entry.message);
    forall id | id in rows || id == entry.row ensures Names(rowOf', id) {
      if id == entry.row {
        assert rowOf'[entry.message.version] == id;
      } else {
        var k :| k in rowOf && rowOf[k] == id;
        assert rowOf'[k] == id;
      }
    }
  }

  lemma CarriesItsOwn(encode: Encoding, m: Message)
    ensures Carries(encode, encode(m), m.version, m.event)
  {
  }

  lemma {:induction false} RowsLinked(encode: Encoding, events: map<VersionKey, Event>, rowOf: map<VersionKey, Id>, o: O.State, news: seq<New>, createdAt: int)
    requires Linked(encode, events, rowOf, o.rows) && o.rows.Keys <= o.issued && AreFresh(o.issued, rowOf.Keys, events, news)
    ensures
      var (rowOf', rows') := (AddNames(rowOf, news), AddRows(o, encode, news, createdAt).rows);
      Linked(encode, events, rowOf', rows') && (forall k :: k in rowOf' <==> k in rowOf || Mentions(news, k)) &&
      (forall k :: k in rowOf ==> rowOf'[k] == rowOf[k]) && forall id :: id in rows' ==> id in o.rows || Draws(news, id)
    decreases |news|
  {
    hide Linked;
    if news != [] {
      var n := |news| - 1;
      var front, last := news[..n], news[n];
      RowsLinked(encode, events, rowOf, o, front, createdAt);
      OneMoreNew(news);
      assert !Mentions(front, last.message.version) && !Draws(front, last.row);
      LinkedOneMore(encode, events, AddNames(rowOf, front), AddRows(o, encode, front, createdAt).rows, last, createdAt);
    }
  }

  lemma OneMoreNew(news: seq<New>)
    requires news != []
    ensures
      var (front, last) := (news[..|news| - 1], news[|news| - 1]);
      (forall k :: Mentions(news, k) <==> Mentions(front, k) || k == last.message.version) &&
      forall id :: Draws(news, id) <==> Draws(front, id) || id == last.row
  {
    var n := |news| - 1;
    var front, last := news[..n], news[n];
    forall k ensures Mentions(news, k) <==> Mentions(front, k) || k == last.message.version {
      if Mentions(front, k) { var i :| 0 <= i < n && front[i].message.version == k; assert news[i].message.version == k; }
      if Mentions(news, k) { var i :| 0 <= i <= n && news[i].message.version == k; if i < n { assert front[i].message.version == k; } }
    }
    forall id ensures Draws(news, id) <==> Draws(front, id) || id == last.row {
      if Draws(front, id) { var i :| 0 <= i < n && front[i].row == id; assert news[i].row == id; }
      if Draws(news, id) { var i :| 0 <= i <= n && news[i].row == id; if i < n { assert front[i].row == id; } }
    }
  }

  /** When events go, and those that stay are as they were, so do their rows and names. */
  lemma RemainingLinked(encode: Encoding, events: map<VersionKey, Event>, events': map<VersionKey, Event>,
                        rowOf: map<VersionKey, Id>, rows: map<Id, O.Row>)
    requires Linked(encode, events, rowOf, rows)
    requires forall k :: k in events && k in events' ==> events'[k] == events[k]
    ensures Linked(encode, events', Remaining(rowOf, events'), rows - Gone(rowOf, events'))
  {
    hide Carries;
    var left := Remaining(rowOf, events');
    forall id | id in rows - Gone(rowOf, events') ensures Names(left, id) {
      assert Names(rowOf, id);
      var k :| k in rowOf && rowOf[k] == id;
      assert k in left && left[k] == id;
    }
  }

  lemma ReachableSound(cfg: O.Config, o: O.State)
    requires Reachable(cfg, o)
    ensures O.Inv(o, cfg) && O.PayloadsKept(o) && o.rows.Keys <= o.issued
    ensures forall id :: id in o.rows && o.rows[id].status.Published? ==> O.Delivered(o.log, id)
  {
    hide O.IsStep, O.PayloadsKept, O.BatchSound, O.Exclusive, O.RowSound, O.Delivered;
    var states, steps :| LeadsTo(states, cfg, steps, o);
    O.NothingYet(cfg);
    O.RunInv(states, cfg, steps, |steps|);
    O.RunPayloads(states, cfg, steps, |steps|);
  }

  lemma EventsKept(db: Db, db': Db)
    requires Tables.Evolves(db, db')
    ensures forall k :: k in db.outbox && k in db'.outbox ==> db'.outbox[k] == db.outbox[k]
  {
  }

  lemma StoreStepInv(s: State, rules: SchemaRules, cfg: O.Config, encode: Encoding, news: seq<New>, createdAt: int, s': State)
    requires Inv(s, cfg, encode) && StoreStep(s, rules, encode, news, createdAt, s')
    ensures Inv(s', cfg, encode) && Tables.Evolves(s.store.db, s'.store.db) && s'.outbox.log == s.outbox.log
    ensures forall k :: k in s.rowOf && k in s'.rowOf ==> s'.rowOf[k] == s.rowOf[k]
  {
    hide T.Inv, T.Next, Linked, Reachable, O.IsStep, O.Inv, O.PayloadsKept, Tables.Evolves, O.Delivered, AddRows, AddNames, AreFresh;
    var events := s'.store.db.outbox;
    T.StepInv(s.store, rules, s'.store);
    EventsKept(s.store.db, s'.store.db);
    RemainingLinked(encode, s.store.db.outbox, events, s.rowOf, s.outbox.rows);
    var mid := s.outbox.(rows := s.outbox.rows - Gone(s.rowOf, events));
    RowsGo(s.outbox, cfg, Gone(s.rowOf, events));
    ReachableSound(cfg, mid);
    FreshAlso(s.outbox.issued, s.rowOf.Keys, Remaining(s.rowOf, events).Keys, events, news);
    RowsReachable(mid, cfg, encode, news, createdAt);
    RowsLinked(encode, events, Remaining(s.rowOf, events), mid, news, createdAt);
    assert s'.rowOf.Keys == events.Keys;
  }

  lemma FreshAlso(issued: set<Id>, known: set<VersionKey>, fewer: set<VersionKey>, events: map<VersionKey, Event>, news: seq<New>)
    requires AreFresh(issued, known, events, news) && fewer <= known
    ensures AreFresh(issued, fewer, events, news) && forall k :: Mentions(news, k) ==> k in events
    ensures forall i :: 0 <= i < |news| ==> news[i].row !in issued
    ensures forall i, j :: 0 <= i < j < |news| ==> news[i].row != news[j].row
  {
  }

  lemma RowsGo(o: O.State, cfg: O.Config, gone: set<Id>)
    requires Reachable(cfg, o) && forall id :: id in gone ==> !O.Locked(o, id)
    ensures Reachable(cfg, o.(rows := o.rows - gone))
  {
    hide Reachable;
    OneStepFurther(cfg, o, O.Delete(gone), o.(rows := o.rows - gone));
  }

  lemma WorkerStepInv(s: State, cfg: O.Config, encode: Encoding, step: O.Step, s': State)
    requires Inv(s, cfg, encode) && WorkerStep(s, cfg, step, s')
    ensures Inv(s', cfg, encode)
    ensures s'.store == s.store && s'.rowOf == s.rowOf
  {
    hide T.Inv, Reachable, O.IsStep, O.Inv, O.PayloadsKept, O.Delivered;
    ReachableSound(cfg, s.outbox);
    O.StepPayloads(s.outbox, cfg, step, s'.outbox);
    SameRows(s.outbox, cfg, step, s'.outbox);
    OneStepFurther(cfg, s.outbox, step, s'.outbox);
  }

  lemma SameRows(o: O.State, cfg: O.Config, step: O.Step, o': O.State)
    requires O.Inv(o, cfg) && O.IsStep(o, cfg, step, o') && !step.Insert? && !step.Delete?
    ensures o'.rows.Keys == o.rows.Keys
  {
    hide O.Processed, O.Picks, O.Exclusive, O.RowSound, O.RowWork, O.Delivered;
    if step.Commit? {
      assert O.BatchSound(o, cfg, o.batches[step.worker]);
      forall id | id in o.batches[step.worker].written ensures id in o.rows { assert O.Holds(o.batches[step.worker], id); }
    }
  }

  lemma FirstInv(cfg: O.Config, encode: Encoding)
    ensures Inv(State(T.State(EmptyDb(), map[]), O.Initial(), map[]), cfg, encode)
  {
    hide Sound;
    EmptyIsSound();
    assert LeadsTo([O.Initial()], cfg, [], O.Initial());
  }

  /** A step keeps the invariant, and each version keeps its row. */
  lemma StepInv(s: State, rules: SchemaRules, cfg: O.Config, encode: Encoding, s': State)
    requires Inv(s, cfg, encode) && Next(s, rules, cfg, encode, s')
    ensures Inv(s', cfg, encode) && Tables.Evolves(s.store.db, s'.store.db)
    ensures forall k :: k in s.rowOf && k in s'.rowOf ==> s'.rowOf[k] == s.rowOf[k]
  {
    hide Inv, StoreStep, WorkerStep, Tables.Evolves;
    if news, createdAt :| StoreStep(s, rules, encode, news, createdAt, s') {
      StoreStepInv(s, rules, cfg, encode, news, createdAt, s');
    } else {
      var step :| WorkerStep(s, cfg, step, s');
      WorkerStepInv(s, cfg, encode, step, s');
      T.SameDb(s.store, s'.store);
    }
  }

  lemma {:induction false} RunInv(run: seq<State>, rules: SchemaRules, cfg: O.Config, encode: Encoding, k: nat)
    requires IsRun(run, rules, cfg, encode) && k < |run|
    ensures Inv(run[k], cfg, encode)
  {
    hide Inv, Next, Tables.Evolves;
    if k == 0 {
      FirstInv(cfg, encode);
    } else {
      RunInv(run, rules, cfg, encode, k - 1);
      StepInv(run[k - 1], rules, cfg, encode, run[k]);
    }
  }

  // ---------- the guarantees ----------

  lemma StoreSound(s: State, cfg: O.Config, encode: Encoding)
    requires Inv(s, cfg, encode)
    ensures Consistent(s.store.db) && s.store.db.versions.Keys == s.rowOf.Keys == s.store.db.outbox.Keys
    ensures forall k :: k in s.rowOf ==> k.entity in s.store.db.entities && k.entity in s.store.db.issued
  {
    hide CatalogSound, BindingsSound, EventsSound, HistoriesSound, MappingsSound, ConflictsSound, Numbered, UpToDate, T.TxSound, T.Exclusive, T.ClaimsRespected, Linked, Reachable;
  }

  /** A version that is there twice was there all the time. */
  lemma VersionStays(a: Db, b: Db, c: Db, k: VersionKey)
    requires Tables.Evolves(a, b) && Tables.Evolves(b, c) && k in a.versions && k in c.versions
    requires k.entity in a.issued && k.entity in c.entities
    ensures k in b.versions
  {
  }

  lemma {:induction false} RunEvolves(run: seq<State>, rules: SchemaRules, cfg: O.Config, encode: Encoding, i: nat, j: nat)
    requires IsRun(run, rules, cfg, encode) && i <= j < |run|
    ensures Tables.Evolves(run[i].store.db, run[j].store.db)
    decreases j
  {
    hide Inv, Next, Tables.Evolves, Consistent;
    if i == j {
      T.SameDb(run[i].store, run[j].store);
    } else {
      RunEvolves(run, rules, cfg, encode, i, j - 1);
      RunInv(run, rules, cfg, encode, i);
      RunInv(run, rules, cfg, encode, j - 1);
      RunInv(run, rules, cfg, encode, j);
      StoreSound(run[i], cfg, encode);
      StoreSound(run[j - 1], cfg, encode);
      StoreSound(run[j], cfg, encode);
      StepInv(run[j - 1], rules, cfg, encode, run[j]);
      EvolvesTransitive(run[i].store.db, run[j - 1].store.db, run[j].store.db);
    }
  }

  lemma {:induction false} RowStays(run: seq<State>, rules: SchemaRules, cfg: O.Config, encode: Encoding, i: nat, j: nat, k: VersionKey)
    requires IsRun(run, rules, cfg, encode) && i <= j < |run| && k in run[i].store.db.versions && k in run[j].store.db.versions
    ensures k in run[i].rowOf && k in run[j].rowOf && run[j].rowOf[k] == run[i].rowOf[k]
    decreases j
  {
    hide Inv, Next, Tables.Evolves, Consistent;
    RunInv(run, rules, cfg, encode, i);
    RunInv(run, rules, cfg, encode, j);
    StoreSound(run[i], cfg, encode);
    StoreSound(run[j], cfg, encode);
    if i < j {
      RunInv(run, rules, cfg, encode, j - 1);
      StoreSound(run[j - 1], cfg, encode);
      StepInv(run[j - 1], rules, cfg, encode, run[j]);
      RunEvolves(run, rules, cfg, encode, i, j - 1);
      VersionStays(run[i].store.db, run[j - 1].store.db, run[j].store.db, k);
      RowStays(run, rules, cfg, encode, i, j - 1, k);
    }
  }

  /** The publisher has accepted the row with this payload. */
  ghost predicate AcceptedWith(log: seq<O.Call>, id: Id, payload: string) {
    exists n :: 0 <= n < |log| && log[n] == O.Call(id, payload, true, log[n].ok)
  }

  /** Whatever transactions and workers do, and whoever crashes: as long as a version exists it has
      one row of its own in the outbox, always the same, which carries the event as it was when the
      version was written. Once the row is published, the publisher has accepted that event. */
  lemma EveryVersionIsAnnounced(run: seq<State>, rules: SchemaRules, cfg: O.Config, encode: Encoding, i: nat, j: nat, k: VersionKey)
    requires IsRun(run, rules, cfg, encode) && i <= j < |run| && k in run[i].store.db.versions && k in run[j].store.db.versions
    ensures k in run[i].rowOf && k in run[j].rowOf && run[j].rowOf[k] == run[i].rowOf[k] && run[j].rowOf[k] in run[j].outbox.rows
    ensures forall l :: l in run[j].rowOf && l != k ==> run[j].rowOf[l] != run[j].rowOf[k]
    ensures k in run[i].store.db.outbox
    ensures
      var row := run[j].outbox.rows[run[j].rowOf[k]];
      Carries(encode, row.payload, k, run[i].store.db.outbox[k]) &&
      (row.status.Published? ==> AcceptedWith(run[j].outbox.log, run[j].rowOf[k], row.payload))
  {
    hide Inv, Next, Tables.Evolves, Consistent, Carries;
    RunInv(run, rules, cfg, encode, i);
    RunInv(run, rules, cfg, encode, j);
    StoreSound(run[i], cfg, encode);
    StoreSound(run[j], cfg, encode);
    RowStays(run, rules, cfg, encode, i, j, k);
    RunEvolves(run, rules, cfg, encode, i, j);
    EventsKept(run[i].store.db, run[j].store.db);
    RowAnnounces(run[j], cfg, encode, k);
  }

  lemma RowAnnounces(s: State, cfg: O.Config, encode: Encoding, k: VersionKey)
    requires Inv(s, cfg, encode) && k in s.rowOf
    ensures s.rowOf[k] in s.outbox.rows && k in s.store.db.outbox
    ensures forall l :: l in s.rowOf && l != k ==> s.rowOf[l] != s.rowOf[k]
    ensures
      var row := s.outbox.rows[s.rowOf[k]];
      Carries(encode, row.payload, k, s.store.db.outbox[k]) &&
      (row.status.Published? ==> AcceptedWith(s.outbox.log, s.rowOf[k], row.payload))
  {
    hide T.Inv, Reachable, O.Inv, Carries;
    ReachableSound(cfg, s.outbox);
    var id := s.rowOf[k];
    if s.outbox.rows[id].status.Published? {
      var n :| 0 <= n < |s.outbox.log| && O.IsAcceptance(s.outbox.log[n], id);
      assert s.outbox.log[n] == O.Call(id, s.outbox.rows[id].payload, true, s.outbox.log[n].ok);
    }
  }

  /** The call tells the event of a version that was there when the call was made. */
  ghost predicate TellsOf(s: State, encode: Encoding, c: O.Call, k: VersionKey) {
    k in s.store.db.versions && k in s.store.db.outbox && k in s.rowOf && s.rowOf[k] == c.row &&
    Carries(encode, c.payload, k, s.store.db.outbox[k])
  }

  ghost predicate IsTold(run: seq<State>, encode: Encoding, n: nat, c: O.Call) {
    exists i, k :: 0 <= i < n && i < |run| && TellsOf(run[i], encode, c, k)
  }

  /** Nothing else is ever announced: each call of the publisher tells the event of a committed
      version. */
  lemma {:induction false} NothingElseIsAnnounced(run: seq<State>, rules: SchemaRules, cfg: O.Config, encode: Encoding, j: nat)
    requires IsRun(run, rules, cfg, encode) && j < |run|
    ensures forall n :: 0 <= n < |run[j].outbox.log| ==> IsTold(run, encode, j, run[j].outbox.log[n])
  {
    hide Inv, Next, IsTold;
    if j > 0 {
      NothingElseIsAnnounced(run, rules, cfg, encode, j - 1);
      RunInv(run, rules, cfg, encode, j - 1);
      forall n | 0 <= n < |run[j].outbox.log| ensures IsTold(run, encode, j, run[j].outbox.log[n]) {
        NewCall(run[j - 1], rules, cfg, encode, run[j], n);
        if n < |run[j - 1].outbox.log| {
          ToldLater(run, encode, j, run[j].outbox.log[n]);
        } else {
          var k :| TellsOf(run[j - 1], encode, run[j].outbox.log[n], k);
          ToldNow(run, encode, j, run[j].outbox.log[n], k);
        }
      }
    }
  }

  lemma ToldLater(run: seq<State>, encode: Encoding, j: nat, c: O.Call)
    requires j > 0 && IsTold(run, encode, j - 1, c)
    ensures IsTold(run, encode, j, c)
  {
    hide TellsOf;
  }

  lemma ToldNow(run: seq<State>, encode: Encoding, j: nat, c: O.Call, k: VersionKey)
    requires 0 < j <= |run| && TellsOf(run[j - 1], encode, c, k)
    ensures IsTold(run, encode, j, c)
  {
    hide TellsOf;
  }

  lemma NewCall(s: State, rules: SchemaRules, cfg: O.Config, encode: Encoding, s': State, n: nat)
    requires Inv(s, cfg, encode) && Next(s, rules, cfg, encode, s') && n < |s'.outbox.log|
    ensures n < |s.outbox.log| ==> s'.outbox.log[n] == s.outbox.log[n]
    ensures n >= |s.outbox.log| ==> exists k :: TellsOf(s, encode, s'.outbox.log[n], k)
  {
    hide Inv, StoreStep, WorkerStep, Tables.Evolves;
    if news, createdAt :| StoreStep(s, rules, encode, news, createdAt, s') {
      StoreStepInv(s, rules, cfg, encode, news, createdAt, s');
    } else {
      var step :| WorkerStep(s, cfg, step, s');
      WorkerCalls(s, cfg, encode, step, s', n);
    }
  }

  lemma WorkerCalls(s: State, cfg: O.Config, encode: Encoding, step: O.Step, s': State, n: nat)
    requires Inv(s, cfg, encode) && WorkerStep(s, cfg, step, s') && n < |s'.outbox.log|
    ensures n < |s.outbox.log| ==> s'.outbox.log[n] == s.outbox.log[n]
    ensures n >= |s.outbox.log| ==> exists k :: TellsOf(s, encode, s'.outbox.log[n], k)
  {
    hide T.Inv, Reachable, O.Picks, O.Processed, Carries, Consistent;
    if n >= |s.outbox.log| {
      var id := s.outbox.batches[step.worker].todo[0];
      assert Names(s.rowOf, id);
      var k :| k in s.rowOf && s.rowOf[k] == id;
      StoreSound(s, cfg, encode);
      assert TellsOf(s, encode, s'.outbox.log[n], k);
    }
  }
}
