/** Delivery of the outbox. Workers lock batches of rows, call a publisher whose effects outlive a
    rollback, and write the outcome of the calls when the batch commits. */
module OutboxWorker {
  import opened Basics
  import opened Lists
  import opened Maps
  import opened Backoff

  datatype Status = Pending | Published | Failed

  datatype Row = Row(payload: string, createdAt: int, status: Status, attempts: int,
                     lastError: Option<string>, nextRetry: Option<int>)

  datatype Config = Config(batchSize: int, maxAttempts: int, backoffBase: Int64, isJson: string -> bool)

  function BatchLimit(cfg: Config): (n: nat)
    ensures n >= 1 && (cfg.batchSize >= 1 ==> n == cfg.batchSize) && (cfg.batchSize < 1 ==> n == 32)
  {
    if cfg.batchSize < 1 then 32 else cfg.batchSize
  }

  function AttemptLimit(cfg: Config): (n: int)
    ensures n >= 1 && (cfg.maxAttempts >= 1 ==> n == cfg.maxAttempts) && (cfg.maxAttempts < 1 ==> n == 5)
  {
    if cfg.maxAttempts < 1 then 5 else cfg.maxAttempts
  }

  // ---------- one row ----------

  datatype Answer = Accepted | Refused(reason: string)

  const INVALID_JSON := "invalid_json_payload"

  function MarkInvalid(row: Row): Row {
    row.(status := Failed, lastError := Some(INVALID_JSON), nextRetry := None)
  }

  function MarkPublished(row: Row): Row {
    row.(status := Published, attempts := 0, lastError := None, nextRetry := None)
  }

  function MarkRefused(cfg: Config, row: Row, reason: string, clock: int): Row {
    var count := row.attempts + 1;
    var exhausted := count >= AttemptLimit(cfg);
    row.(attempts := count, lastError := Some(reason),
         nextRetry := if exhausted then None else Some(clock + OutboxDelay(count, BaseOr(cfg.backoffBase, 1_000_000_000))),
         status := if exhausted then Failed else Pending)
  }

  /** UPDATE ... WHERE status = 'pending'. */
  function Guarded(row: Row, updated: Row): Row {
    if row.status.Pending? then updated else row
  }

  function Processed(cfg: Config, row: Row, answer: Answer, clock: int): Row {
    if !cfg.isJson(row.payload) then Guarded(row, MarkInvalid(row))
    else match answer
      case Accepted => Guarded(row, MarkPublished(row))
      case Refused(reason) => Guarded(row, MarkRefused(cfg, row, reason, clock))
  }

  /** A row waits only while it has attempts left; a retry time is set exactly on a row that waits
      after a failure. */
  ghost predicate RowSound(cfg: Config, row: Row) {
    0 <= row.attempts &&
    (row.status.Pending? ==> row.attempts < AttemptLimit(cfg)) &&
    (row.nextRetry.Some? <==> row.status.Pending? && row.attempts > 0)
  }

  /** What becomes of a waiting row. Without valid JSON it fails at once; accepted, it is published and
      starts afresh; refused, it has cost an attempt and waits for the delay of that attempt, unless it
      was the last one. It stays sound, and costs at least one attempt less from now on. */
  lemma ProcessedSound(cfg: Config, row: Row, answer: Answer, clock: int)
    requires RowSound(cfg, row) && row.status.Pending?
    ensures
      var row' := Processed(cfg, row, answer, clock);
      RowSound(cfg, row') && RowWork(cfg, row') <= RowWork(cfg, row) - 1 &&
      row'.payload == row.payload && row'.createdAt == row.createdAt &&
      (!cfg.isJson(row.payload) ==>
        row'.status == Failed && row'.attempts == row.attempts && row'.lastError == Some("invalid_json_payload") && row'.nextRetry == None) &&
      (cfg.isJson(row.payload) && answer.Accepted? ==>
        row'.status == Published && row'.attempts == 0 && row'.lastError == None && row'.nextRetry == None) &&
      (cfg.isJson(row.payload) && answer.Refused? ==>
        row'.attempts == row.attempts + 1 && row'.lastError == Some(answer.reason) &&
        if row.attempts + 1 >= AttemptLimit(cfg) then row'.status == Failed && row'.nextRetry == None
        else
          row'.status == Pending && row'.nextRetry == Some(clock + OutboxDelay(row.attempts + 1, cfg.backoffBase)) &&
          row'.nextRetry.value > clock)
  {
    if answer.Refused? {
      DelaysAscend(row.attempts + 1, row.attempts + 1, BaseOr(cfg.backoffBase, 1_000_000_000));
      DelaysAscend(row.attempts + 1, row.attempts + 1, cfg.backoffBase);
    }
  }

  /** A row that is refused twice in a row waits at least as long the second time, and twice as long
      as long as the cap and the last doubling are not reached. */
  lemma RetriesSpread(cfg: Config, row: Row, reason: string, clock: int, reason': string, clock': int)
    requires RowSound(cfg, row) && row.status.Pending? && cfg.isJson(row.payload)
    requires
      var once := Processed(cfg, row, Refused(reason), clock);
      once.status.Pending? && Processed(cfg, once, Refused(reason'), clock').status.Pending?
    ensures
      var once := Processed(cfg, row, Refused(reason), clock);
      var twice := Processed(cfg, once, Refused(reason'), clock');
      once.nextRetry.Some? && twice.nextRetry.Some? &&
      var (first, second) := (once.nextRetry.value - clock, twice.nextRetry.value - clock');
      0 < first <= second <= CAP && (row.attempts + 1 <= MAX_DOUBLINGS ==> second == Min(2 * first, CAP))
  {
    hide Processed;
    var once := Processed(cfg, row, Refused(reason), clock);
    ProcessedSound(cfg, row, Refused(reason), clock);
    ProcessedSound(cfg, once, Refused(reason'), clock');
    DelaysAscend(row.attempts + 1, row.attempts + 2, cfg.backoffBase);
    if row.attempts + 1 <= MAX_DOUBLINGS { EachFailureDoubles(row.attempts + 1, cfg.backoffBase); }
  }

  /** The attempts a row may still cost. */
  function RowWork(cfg: Config, row: Row): int {
    if row.status.Pending? then AttemptLimit(cfg) - row.attempts else 0
  }

  // ---------- the machine ----------

  /** A call of the publisher, which no rollback takes back: whether the message was accepted, and
      whether the worker was told so. A call that ends in an error, such as a timeout, may have been
      accepted all the same. */
  datatype Call = Call(row: Id, payload: string, accepted: bool, ok: bool)

  /** An open batch: the rows still to be processed, the rows as it has rewritten them, and which
      calls it has made. */
  datatype Batch = Batch(todo: seq<Id>, written: map<Id, Row>, calls: set<nat>)

  /** The table and the open batches; and, for the record, the calls made, those made in batches that
      were rolled back, and the ids drawn. */
  datatype State = State(rows: map<Id, Row>, batches: map<nat, Batch>, log: seq<Call>, rolledBack: set<nat>, issued: set<Id>)

  datatype Step =
    | Begin(worker: nat, now: int, picked: seq<Id>)
    | Process(worker: nat, answer: Answer, accepted: bool, clock: int)
    | Commit(worker: nat)
    | Rollback(worker: nat)
    | Insert(id: Id, payload: string, createdAt: int)
    | Delete(ids: set<Id>)

  predicate Holds(b: Batch, id: Id) {
    id in b.todo || id in b.written
  }

  ghost predicate Locked(s: State, id: Id) {
    exists w :: w in s.batches && Holds(s.batches[w], id)
  }

  predicate Due(row: Row, now: int) {
    row.status.Pending? && (row.nextRetry.None? || row.nextRetry.value <= now)
  }

  /** ORDER BY created_at LIMIT n FOR UPDATE SKIP LOCKED. */
  ghost predicate Picks(rows: map<Id, Row>, locked: set<Id>, now: int, limit: nat, ids: seq<Id>) {
    Distinct(ids) && |ids| <= limit &&
    (forall i :: 0 <= i < |ids| ==> ids[i] in rows && Due(rows[ids[i]], now) && ids[i] !in locked) &&
    (forall i, j :: 0 <= i < j < |ids| ==> rows[ids[i]].createdAt <= rows[ids[j]].createdAt) &&
    forall id :: id in rows && Due(rows[id], now) && id !in locked && id !in ids ==>
      |ids| == limit && forall i :: 0 <= i < |ids| ==> rows[ids[i]].createdAt <= rows[id].createdAt
  }

  /** What a selection gives: waiting rows that no open batch holds and whose retry time, if they have
      one, has come, oldest first; and none that is left out is older, or the batch is not full. */
  lemma PicksMeans(rows: map<Id, Row>, locked: set<Id>, now: int, limit: nat, ids: seq<Id>)
    requires Picks(rows, locked, now, limit, ids)
    ensures |ids| <= limit && forall i, j :: 0 <= i < j < |ids| ==> ids[i] != ids[j]
    ensures forall i :: 0 <= i < |ids| ==>
      ids[i] in rows && rows[ids[i]].status == Pending && (rows[ids[i]].nextRetry.Some? ==> rows[ids[i]].nextRetry.value <= now) && ids[i] !in locked
    ensures forall i, j :: 0 <= i < j < |ids| ==> ids[i] in rows && ids[j] in rows && rows[ids[i]].createdAt <= rows[ids[j]].createdAt
    ensures forall id :: id in rows && id !in ids && id !in locked && rows[id].status == Pending && (rows[id].nextRetry.Some? ==> rows[id].nextRetry.value <= now) ==>
      |ids| == limit && forall i :: 0 <= i < |ids| ==> ids[i] in rows && rows[ids[i]].createdAt <= rows[id].createdAt
  {
  }

  ghost function LockedIds(s: State): set<Id> {
    set id | id in s.rows && Locked(s, id)
  }

  function NewRow(payload: string, createdAt: int): Row {
    Row(payload, createdAt, Pending, 0, None, None)
  }

  function CallsFor(cfg: Config, id: Id, row: Row, answer: Answer, accepted: bool): seq<Call> {
    if cfg.isJson(row.payload) then [Call(id, row.payload, accepted, answer.Accepted?)] else []
  }

  /** The batch after its next row was processed, when `made` calls had been made before. */
  function NextBatch(cfg: Config, b: Batch, row: Row, answer: Answer, clock: int, made: nat): Batch
    requires b.todo != []
  {
    Batch(b.todo[1..], b.written[b.todo[0] := Processed(cfg, row, answer, clock)],
          b.calls + if cfg.isJson(row.payload) then {made} else {})
  }

  ghost predicate IsStep(s: State, cfg: Config, step: Step, s': State) {
    match step
    case Begin(w, now, picked) =>
      w !in s.batches && Picks(s.rows, LockedIds(s), now, BatchLimit(cfg), picked) &&
      s' == s.(batches := s.batches[w := Batch(picked, map[], {})])
    case Process(w, answer, accepted, clock) =>
      w in s.batches && s.batches[w].todo != [] && s.batches[w].todo[0] in s.rows && (answer.Accepted? ==> accepted) &&
      var b := s.batches[w];
      var id := b.todo[0];
      s' == s.(batches := s.batches[w := NextBatch(cfg, b, s.rows[id], answer, clock, |s.log|)],
               log := s.log + CallsFor(cfg, id, s.rows[id], answer, accepted))
    case Commit(w) =>
      w in s.batches && s.batches[w].todo == [] &&
      s' == s.(rows := s.rows + s.batches[w].written, batches := s.batches - {w})
    case Rollback(w) =>
      w in s.batches && s' == s.(batches := s.batches - {w}, rolledBack := s.rolledBack + s.batches[w].calls)
    case Insert(id, payload, createdAt) =>
      id !in s.issued && s' == s.(rows := s.rows[id := NewRow(payload, createdAt)], issued := s.issued + {id})
    case Delete(ids) =>
      (forall id :: id in ids ==> !Locked(s, id)) && s' == s.(rows := s.rows - ids)
  }

  ghost predicate IsRun(states: seq<State>, cfg: Config, steps: seq<Step>) {
    |states| == |steps| + 1 && forall k :: 0 <= k < |steps| ==> IsStep(states[k], cfg, steps[k], states[k + 1])
  }

  function Initial(): State {
    State(map[], map[], [], {}, {})
  }

  // ---------- what every state keeps ----------

  ghost predicate Delivered(log: seq<Call>, id: Id) {
    exists k :: 0 <= k < |log| && IsAcceptance(log[k], id)
  }

  predicate IsAcceptance(c: Call, id: Id) {
    c.row == id && c.accepted
  }

  ghost predicate BatchSound(s: State, cfg: Config, b: Batch) {
    Distinct(b.todo) &&
    (forall id :: id in b.todo ==> id !in b.written) &&
    (forall id :: Holds(b, id) ==> id in s.rows && s.rows[id].status.Pending?) &&
    forall id :: id in b.written ==>
      RowSound(cfg, b.written[id]) && RowWork(cfg, b.written[id]) <= RowWork(cfg, s.rows[id]) - 1 &&
      (b.written[id].status.Published? ==> Delivered(s.log, id))
  }

  /** No row is in two open batches. */
  ghost predicate Exclusive(s: State) {
    forall v, w, id :: v in s.batches && w in s.batches && Holds(s.batches[v], id) && Holds(s.batches[w], id) ==> v == w
  }

  ghost predicate RowsSound(s: State, cfg: Config) {
    s.rows.Keys <= s.issued &&
    forall id :: id in s.rows ==> RowSound(cfg, s.rows[id]) && (s.rows[id].status.Published? ==> Delivered(s.log, id))
  }

  ghost predicate Inv(s: State, cfg: Config) {
    RowsSound(s, cfg) && Exclusive(s) && forall w :: w in s.batches ==> BatchSound(s, cfg, s.batches[w])
  }

  lemma DeliveredStays(log: seq<Call>, more: seq<Call>, id: Id)
    requires Delivered(log, id)
    ensures Delivered(log + more, id)
  {
    var k :| 0 <= k < |log| && IsAcceptance(log[k], id);
    assert (log + more)[k] == log[k];
  }

  lemma StepInv(s: State, cfg: Config, step: Step, s': State)
    requires Inv(s, cfg) && IsStep(s, cfg, step, s')
    ensures Inv(s', cfg)
  {
    hide RowSound, Delivered, Due, Processed, IsStep, Picks;
    match step
    case Begin(w, now, picked) => BeginInv(s, cfg, w, now, picked, s');
    case Process(w, answer, accepted, clock) => ProcessInv(s, cfg, w, answer, accepted, clock, s');
    case Commit(w) => CommitInv(s, cfg, w, s');
    case Rollback(w) => RollbackInv(s, cfg, w, s');
    case Insert(id, payload, createdAt) => InsertInv(s, cfg, id, payload, createdAt, s');
    case Delete(ids) => DeleteInv(s, cfg, ids, s');
  }

  lemma BeginInv(s: State, cfg: Config, w: nat, now: int, picked: seq<Id>, s': State)
    requires Inv(s, cfg) && IsStep(s, cfg, Begin(w, now, picked), s')
    ensures Inv(s', cfg)
  {
    hide RowSound, Delivered;
    forall v, id | v in s.batches && Holds(s.batches[v], id) ensures Locked(s, id) && id !in picked {
      assert BatchSound(s, cfg, s.batches[v]);
      assert id in LockedIds(s);
    }
    forall v | v in s'.batches ensures BatchSound(s', cfg, s'.batches[v]) {
      if v != w { assert BatchSound(s, cfg, s.batches[v]); }
    }
  }

  lemma ProcessInv(s: State, cfg: Config, w: nat, answer: Answer, accepted: bool, clock: int, s': State)
    requires Inv(s, cfg) && IsStep(s, cfg, Process(w, answer, accepted, clock), s')
    ensures Inv(s', cfg)
  {
    hide RowSound, Delivered, Processed, RowWork, BatchSound;
    var b := s.batches[w];
    var id := b.todo[0];
    forall x | Delivered(s.log, x) ensures Delivered(s'.log, x) {
      DeliveredStays(s.log, CallsFor(cfg, id, s.rows[id], answer, accepted), x);
    }
    ProcessedBatch(s, cfg, b, answer, accepted, clock);
    forall v | v in s'.batches ensures BatchSound(s', cfg, s'.batches[v]) {
      if v == w { BatchKept(s.(log := s'.log), s', cfg, s'.batches[v]); } else { BatchKept(s, s', cfg, s.batches[v]); }
    }
    forall v, x | v in s'.batches && Holds(s'.batches[v], x) ensures Holds(s.batches[v], x) {}
  }

  lemma BatchKept(s: State, s': State, cfg: Config, b: Batch)
    requires BatchSound(s, cfg, b) && s'.rows == s.rows && forall x :: Delivered(s.log, x) ==> Delivered(s'.log, x)
    ensures BatchSound(s', cfg, b)
  {
    hide RowSound, Delivered, RowWork;
  }

  lemma ProcessedBatch(s: State, cfg: Config, b: Batch, answer: Answer, accepted: bool, clock: int)
    requires RowsSound(s, cfg) && BatchSound(s, cfg, b) && b.todo != [] && b.todo[0] in s.rows && (answer.Accepted? ==> accepted)
    ensures
      var row := s.rows[b.todo[0]];
      BatchSound(s.(log := s.log + CallsFor(cfg, b.todo[0], row, answer, accepted)), cfg, NextBatch(cfg, b, row, answer, clock, |s.log|))
  {
    hide RowSound, Delivered, Processed, RowWork;
    var id := b.todo[0];
    assert Holds(b, id);
    ProcessedSound(cfg, s.rows[id], answer, clock);
    CallDelivers(s.log, cfg, id, s.rows[id], answer, accepted);
    forall x | Delivered(s.log, x) ensures Delivered(s.log + CallsFor(cfg, id, s.rows[id], answer, accepted), x) {
      DeliveredStays(s.log, CallsFor(cfg, id, s.rows[id], answer, accepted), x);
    }
  }

  lemma CallDelivers(log: seq<Call>, cfg: Config, id: Id, row: Row, answer: Answer, accepted: bool)
    requires answer.Accepted? ==> accepted
    ensures answer.Accepted? && cfg.isJson(row.payload) ==> Delivered(log + CallsFor(cfg, id, row, answer, accepted), id)
  {
    if answer.Accepted? && cfg.isJson(row.payload) {
      var all := log + CallsFor(cfg, id, row, answer, accepted);
      assert all[|log|] == Call(id, row.payload, true, true);
    }
  }

  lemma CommitInv(s: State, cfg: Config, w: nat, s': State)
    requires Inv(s, cfg) && IsStep(s, cfg, Commit(w), s')
    ensures Inv(s', cfg)
  {
    hide RowSound, Delivered;
    assert BatchSound(s, cfg, s.batches[w]);
    forall v | v in s'.batches ensures BatchSound(s', cfg, s'.batches[v]) {
      assert BatchSound(s, cfg, s.batches[v]);
      forall id | id in s.batches[w].written ensures !Holds(s.batches[v], id) {
        assert Holds(s.batches[w], id);
      }
    }
  }

  lemma RollbackInv(s: State, cfg: Config, w: nat, s': State)
    requires Inv(s, cfg) && IsStep(s, cfg, Rollback(w), s')
    ensures Inv(s', cfg)
  {
    hide RowSound, Delivered;
    forall v | v in s'.batches ensures BatchSound(s', cfg, s'.batches[v]) {
      assert BatchSound(s, cfg, s.batches[v]);
    }
  }

  lemma InsertInv(s: State, cfg: Config, id: Id, payload: string, createdAt: int, s': State)
    requires Inv(s, cfg) && IsStep(s, cfg, Insert(id, payload, createdAt), s')
    ensures Inv(s', cfg)
  {
    hide Delivered;
    forall v | v in s'.batches ensures BatchSound(s', cfg, s'.batches[v]) {
      assert BatchSound(s, cfg, s.batches[v]);
      assert !Holds(s.batches[v], id);
    }
  }

  lemma DeleteInv(s: State, cfg: Config, ids: set<Id>, s': State)
    requires Inv(s, cfg) && IsStep(s, cfg, Delete(ids), s')
    ensures Inv(s', cfg)
  {
    hide RowSound, Delivered;
    forall v | v in s'.batches ensures BatchSound(s', cfg, s'.batches[v]) {
      assert BatchSound(s, cfg, s.batches[v]);
      forall id | Holds(s.batches[v], id) ensures id !in ids {
        assert Locked(s, id);
      }
    }
  }

  lemma {:induction false} RunInv(states: seq<State>, cfg: Config, steps: seq<Step>, k: nat)
    requires IsRun(states, cfg, steps) && k < |states| && Inv(states[0], cfg)
    ensures Inv(states[k], cfg)
  {
    hide Inv, IsStep;
    if k > 0 {
      RunInv(states, cfg, steps, k - 1);
      StepInv(states[k - 1], cfg, steps[k - 1], states[k]);
    }
  }

  /** The row that a batch works on next is there and waits: its guarded UPDATE always hits. */
  lemma GuardHits(s: State, cfg: Config, w: nat, updated: Row)
    requires Inv(s, cfg) && w in s.batches && s.batches[w].todo != []
    ensures s.batches[w].todo[0] in s.rows && Guarded(s.rows[s.batches[w].todo[0]], updated) == updated
  {
    hide RowSound, RowWork, Delivered;
    assert BatchSound(s, cfg, s.batches[w]);
    assert Holds(s.batches[w], s.batches[w].todo[0]);
  }

  // ---------- whole runs ----------

  /** No id is used twice, and a row that is `published` or `failed` is never written again. */
  ghost predicate Evolves(s: State, s': State) {
    s.issued <= s'.issued &&
    (forall id :: id in s'.rows ==> id in s.rows || id !in s.issued) &&
    forall id :: id in s.rows && id in s'.rows && !s.rows[id].status.Pending? ==> s'.rows[id] == s.rows[id]
  }

  lemma StepEvolves(s: State, cfg: Config, step: Step, s': State)
    requires Inv(s, cfg) && IsStep(s, cfg, step, s')
    ensures Evolves(s, s')
  {
    hide RowSound, Delivered, Due, Processed, Picks, Exclusive;
    if step.Commit? {
      assert BatchSound(s, cfg, s.batches[step.worker]);
      forall id | id in s.batches[step.worker].written ensures id in s.rows && s.rows[id].status.Pending? {
        assert Holds(s.batches[step.worker], id);
      }
    }
  }

  lemma {:induction false} RunEvolves(states: seq<State>, cfg: Config, steps: seq<Step>, i: nat, j: nat)
    requires IsRun(states, cfg, steps) && i <= j < |states| && Inv(states[0], cfg)
    ensures Evolves(states[i], states[j])
    decreases j
  {
    hide IsStep, BatchSound, RowSound, Delivered, Exclusive;
    if i < j {
      RunEvolves(states, cfg, steps, i, j - 1);
      RunInv(states, cfg, steps, i);
      RunInv(states, cfg, steps, j - 1);
      StepEvolves(states[j - 1], cfg, steps[j - 1], states[j]);
    }
  }

  ghost predicate InOneBatch(s: State, id: Id) {
    forall v, w :: v in s.batches && w in s.batches && Holds(s.batches[v], id) && Holds(s.batches[w], id) ==> v == w
  }

  /** In every run from the empty table, whoever crashes when: a row that is `published` was
      accepted by the publisher at least once, no row is in two batches, and a retry time is set
      exactly on a row that waits after a failure. */
  lemma DeliveredAtLeastOnce(states: seq<State>, cfg: Config, steps: seq<Step>, k: nat, id: Id)
    requires IsRun(states, cfg, steps) && states[0] == Initial() && k < |states| && id in states[k].rows
    ensures
      var row := states[k].rows[id];
      (row.status.Published? ==> Delivered(states[k].log, id)) &&
      (row.nextRetry.Some? <==> row.status.Pending? && row.attempts > 0) &&
      (row.status.Pending? ==> 0 <= row.attempts < AttemptLimit(cfg)) && InOneBatch(states[k], id)
  {
    hide IsStep, BatchSound, Delivered;
    RunInv(states, cfg, steps, k);
  }

  /** `published` and `failed` are final. */
  lemma TerminalRowsStay(states: seq<State>, cfg: Config, steps: seq<Step>, i: nat, j: nat, id: Id)
    requires IsRun(states, cfg, steps) && states[0] == Initial() && i <= j < |states|
    requires id in states[i].rows && !states[i].rows[id].status.Pending? && id in states[j].rows
    ensures states[j].rows[id] == states[i].rows[id]
  {
    hide IsStep, BatchSound, Delivered;
    RunEvolves(states, cfg, steps, i, j);
  }

  // ---------- termination ----------

  ghost function Work(cfg: Config, rows: map<Id, Row>): int
    decreases |rows|
  {
    if rows.Keys == {} then 0
    else
      var id := AnyOf(rows.Keys);
      assert |rows - {id}| < |rows| by { Smaller(rows, id); }
      RowWork(cfg, rows[id]) + Work(cfg, rows - {id})
  }

  lemma Smaller(rows: map<Id, Row>, id: Id)
    requires id in rows
    ensures |rows - {id}| < |rows| && (rows - {id}).Keys == rows.Keys - {id}
  {
    assert |rows.Keys| == |rows| && |(rows - {id}).Keys| == |rows - {id}|;
    assert (rows - {id}).Keys == rows.Keys - {id};
  }

  lemma {:induction false} WorkWithout(cfg: Config, rows: map<Id, Row>, id: Id)
    requires id in rows
    ensures Work(cfg, rows) == RowWork(cfg, rows[id]) + Work(cfg, rows - {id})
    decreases |rows|
  {
    hide RowWork;
    var first := AnyOf(rows.Keys);
    if first != id {
      Smaller(rows, first);
      Smaller(rows, id);
      WorkWithout(cfg, rows - {first}, id);
      WorkWithout(cfg, rows - {id}, first);
      EitherOrder(rows, first, id);
    }
  }

  lemma EitherOrder(rows: map<Id, Row>, a: Id, b: Id)
    ensures rows - {a} - {b} == rows - {b} - {a}
  {
  }

  lemma WorkSet(cfg: Config, rows: map<Id, Row>, id: Id, row: Row)
    requires id in rows
    ensures Work(cfg, rows[id := row]) == Work(cfg, rows) - RowWork(cfg, rows[id]) + RowWork(cfg, row)
  {
    hide RowWork;
    WorkWithout(cfg, rows, id);
    WorkWithout(cfg, rows[id := row], id);
    assert rows[id := row] - {id} == rows - {id};
  }

  /** Rewriting rows so that each costs at least one attempt less lowers the work by at least their
      number. */
  lemma {:induction false} WorkFalls(cfg: Config, rows: map<Id, Row>, written: map<Id, Row>)
    requires forall id :: id in written ==> id in rows && RowWork(cfg, written[id]) <= RowWork(cfg, rows[id]) - 1
    ensures Work(cfg, rows + written) <= Work(cfg, rows) - |written|
    decreases |written|
  {
    hide RowWork;
    if written.Keys == {} {
      MergeNone(rows, written);
    } else {
      var id := AnyOf(written.Keys);
      MergeWithout(rows, written, id);
      Smaller(written, id);
      WorkFalls(cfg, rows, written - {id});
      WorkSet(cfg, rows + (written - {id}), id, written[id]);
    }
  }

  lemma MergeNone(rows: map<Id, Row>, written: map<Id, Row>)
    requires written.Keys == {}
    ensures rows + written == rows && |written| == 0
  {
    assert |written| == |written.Keys|;
  }

  lemma MergeWithout(rows: map<Id, Row>, written: map<Id, Row>, id: Id)
    requires id in written && id in rows
    ensures rows + written == (rows + (written - {id}))[id := written[id]]
    ensures (rows + (written - {id}))[id] == rows[id] && |written - {id}| == |written| - 1
  {
    var rest := written - {id};
    assert |rest.Keys| == |rest| && |written.Keys| == |written| && rest.Keys == written.Keys - {id};
  }

  lemma {:induction false} WorkOfFewer(cfg: Config, rows: map<Id, Row>, ids: set<Id>)
    requires forall id :: id in rows ==> RowSound(cfg, rows[id])
    ensures 0 <= Work(cfg, rows - ids) <= Work(cfg, rows)
    decreases |rows|
  {
    if rows.Keys == {} {
      assert (rows - ids).Keys == {};
    } else {
      var id := AnyOf(rows.Keys);
      Smaller(rows, id);
      WorkOfFewer(cfg, rows - {id}, ids);
      RemoveTwice(rows, ids, id);
      if id !in ids { WorkWithout(cfg, rows - ids, id); }
    }
  }

  lemma RemoveTwice(rows: map<Id, Row>, ids: set<Id>, id: Id)
    ensures rows - {id} - ids == rows - ids - {id}
    ensures id in ids ==> rows - {id} - ids == rows - ids
  {
  }

  /** The rows that the batches committed so far have processed. */
  ghost function CommittedRows(states: seq<State>, steps: seq<Step>): nat
    requires |states| == |steps| + 1
    decreases |steps|
  {
    if steps == [] then 0
    else
      var n := |steps| - 1;
      CommittedRows(states[..n + 1], steps[..n]) +
      if steps[n].Commit? && steps[n].worker in states[n].batches then |states[n].batches[steps[n].worker].written| else 0
  }

  lemma StepWork(s: State, cfg: Config, step: Step, s': State)
    requires Inv(s, cfg) && IsStep(s, cfg, step, s') && !step.Insert?
    ensures Work(cfg, s'.rows) <= Work(cfg, s.rows) - if step.Commit? then |s.batches[step.worker].written| else 0
  {
    hide RowSound, RowWork, Delivered, Due, Processed, Picks, Exclusive;
    if step.Commit? {
      var b := s.batches[step.worker];
      assert BatchSound(s, cfg, b);
      assert forall id :: id in b.written ==> Holds(b, id);
      WorkFalls(cfg, s.rows, b.written);
    } else if step.Delete? {
      WorkOfFewer(cfg, s.rows, step.ids);
    }
  }

  /** Without new rows every committed batch lowers the remaining work by at least the rows it
      processed: after as many processed rows as there were attempts left, nothing waits. */
  lemma {:induction false} WorkRunsOut(states: seq<State>, cfg: Config, steps: seq<Step>)
    requires IsRun(states, cfg, steps) && Inv(states[0], cfg) && forall step :: step in steps ==> !step.Insert?
    ensures 0 <= Work(cfg, states[|steps|].rows) <= Work(cfg, states[0].rows) - CommittedRows(states, steps)
    ensures CommittedRows(states, steps) == Work(cfg, states[0].rows) ==>
      forall id :: id in states[|steps|].rows ==> !states[|steps|].rows[id].status.Pending?
    decreases |steps|
  {
    hide IsStep, RowSound, RowWork, Delivered, BatchSound, Exclusive, Work;
    var n := |steps| - 1;
    RunInv(states, cfg, steps, |steps|);
    NothingWaits(cfg, states[|steps|].rows);
    if steps != [] {
      assert steps[..n] + [steps[n]] == steps;
      WorkRunsOut(states[..n + 1], cfg, steps[..n]);
      RunInv(states, cfg, steps, n);
      assert IsStep(states[n], cfg, steps[n], states[n + 1]);
      StepWork(states[n], cfg, steps[n], states[n + 1]);
      if steps[n].Commit? { CommitNeedsBatch(states[n], cfg, steps[n], states[n + 1]); }
    }
  }

  lemma CommitNeedsBatch(s: State, cfg: Config, step: Step, s': State)
    requires IsStep(s, cfg, step, s') && step.Commit?
    ensures step.worker in s.batches
  {
  }

  lemma {:induction false} NothingWaits(cfg: Config, rows: map<Id, Row>)
    requires forall id :: id in rows ==> RowSound(cfg, rows[id])
    ensures 0 <= Work(cfg, rows)
    ensures Work(cfg, rows) == 0 ==> forall id :: id in rows ==> !rows[id].status.Pending?
  {
    WorkOfFewer(cfg, rows, {});
    forall id | id in rows ensures Work(cfg, rows) >= RowWork(cfg, rows[id]) {
      WorkWithout(cfg, rows, id);
      WorkOfFewer(cfg, rows - {id}, {});
    }
  }

  /** Once every retry time has passed and no batch is open, an empty selection means that nothing
      waits any more. */
  lemma IdleMeansDone(s: State, cfg: Config, now: int, picked: seq<Id>)
    requires s.batches.Keys == {} && Picks(s.rows, LockedIds(s), now, BatchLimit(cfg), picked)
    requires forall id :: id in s.rows && s.rows[id].nextRetry.Some? ==> s.rows[id].nextRetry.value <= now
    ensures picked == [] <==> forall id :: id in s.rows ==> !s.rows[id].status.Pending?
  {
    assert LockedIds(s) == {};
    forall id | id in s.rows && s.rows[id].status.Pending? ensures picked != [] {
      assert Due(s.rows[id], now) && id !in LockedIds(s);
    }
    if picked != [] { assert picked[0] in s.rows && Due(s.rows[picked[0]], now); }
  }

  // ---------- what the calls carry ----------

  /** Calls, and the rows that open batches have rewritten, carry the payloads that stand in the table. */
  ghost predicate PayloadsKept(s: State) {
    (forall k :: 0 <= k < |s.log| ==> s.log[k].row in s.issued && (s.log[k].row in s.rows ==> s.log[k].payload == s.rows[s.log[k].row].payload)) &&
    forall w, id :: w in s.batches && id in s.batches[w].written && id in s.rows ==> s.batches[w].written[id].payload == s.rows[id].payload
  }

  lemma StepPayloads(s: State, cfg: Config, step: Step, s': State)
    requires Inv(s, cfg) && PayloadsKept(s) && IsStep(s, cfg, step, s')
    ensures PayloadsKept(s')
    ensures forall id :: id in s.rows && id in s'.rows ==> s'.rows[id].payload == s.rows[id].payload
  {
    hide Picks, Processed, Inv;
    match step
    case Process(w, answer, accepted, clock) => ProcessPayloads(s, cfg, w, answer, accepted, clock, s');
    case Insert(_, _, _) => WrittenAreRows(s, cfg);
    case Commit(_) => WrittenAreRows(s, cfg);
    case Begin(_, _, _) =>
    case Rollback(_) =>
    case Delete(_) =>
  }

  lemma WrittenAreRows(s: State, cfg: Config)
    requires Inv(s, cfg)
    ensures s.rows.Keys <= s.issued && forall w, id :: w in s.batches && id in s.batches[w].written ==> id in s.rows
  {
    hide RowSound, RowWork, Delivered, Exclusive;
    forall w, id | w in s.batches && id in s.batches[w].written ensures id in s.rows {
      assert BatchSound(s, cfg, s.batches[w]) && Holds(s.batches[w], id);
    }
  }

  lemma ProcessPayloads(s: State, cfg: Config, w: nat, answer: Answer, accepted: bool, clock: int, s': State)
    requires Inv(s, cfg) && PayloadsKept(s) && IsStep(s, cfg, Process(w, answer, accepted, clock), s')
    ensures PayloadsKept(s')
  {
    hide Inv, Processed;
    WrittenAreRows(s, cfg);
    SamePayload(cfg, s.rows[s.batches[w].todo[0]], answer, clock);
  }

  lemma SamePayload(cfg: Config, row: Row, answer: Answer, clock: int)
    ensures Processed(cfg, row, answer, clock).payload == row.payload
  {
  }

  lemma {:induction false} RunPayloads(states: seq<State>, cfg: Config, steps: seq<Step>, k: nat)
    requires IsRun(states, cfg, steps) && states[0] == Initial() && k < |states|
    ensures PayloadsKept(states[k])
  {
    hide IsStep, Inv;
    NothingYet(cfg);
    if k > 0 {
      RunPayloads(states, cfg, steps, k - 1);
      RunInv(states, cfg, steps, k - 1);
      StepPayloads(states[k - 1], cfg, steps[k - 1], states[k]);
    }
  }

  // ---------- exactly once ----------

  /** An acceptance that the table does not know of: the call ended in an error, or its batch was
      rolled back. */
  predicate IsLost(s: State, k: int) {
    0 <= k < |s.log| && s.log[k].accepted && (!s.log[k].ok || k in s.rolledBack)
  }

  /** An answer that counts. */
  predicate Counts(s: State, k: int) {
    0 <= k < |s.log| && s.log[k].ok && k !in s.rolledBack
  }

  ghost predicate CallsSound(s: State) {
    (forall k :: 0 <= k < |s.log| && s.log[k].ok ==> s.log[k].accepted) &&
    (forall k :: k in s.rolledBack ==> 0 <= k < |s.log|) &&
    (forall w :: w in s.batches ==> BatchCallsSound(s, s.batches[w])) &&
    (forall k, l :: Counts(s, k) && Counts(s, l) && s.log[k].row == s.log[l].row ==> k == l) &&
    (forall k :: Counts(s, k) ==> IsPlaced(s, k)) &&
    forall id :: id in s.rows && s.rows[id].status.Published? ==> HasCount(s, id)
  }

  /** The row of an answer that counts is published, or will be by the batch that made the call. */
  ghost predicate IsPlaced(s: State, k: int)
    requires 0 <= k < |s.log|
  {
    var id := s.log[k].row;
    id in s.issued && (id in s.rows ==> s.rows[id].status.Published? || exists w :: w in s.batches && k in s.batches[w].calls)
  }

  ghost predicate HasCount(s: State, id: Id) {
    exists k :: Counts(s, k) && s.log[k].row == id
  }

  ghost predicate BatchCallsSound(s: State, b: Batch) {
    (forall k :: k in b.calls ==>
      k < |s.log| && k !in s.rolledBack && s.log[k].row in b.written &&
      (s.log[k].ok ==> b.written[s.log[k].row].status.Published?)) &&
    forall id :: id in b.written && b.written[id].status.Published? ==> PublishedBy(s, b, id)
  }

  ghost predicate PublishedBy(s: State, b: Batch, id: Id) {
    exists k :: k in b.calls && k < |s.log| && s.log[k].ok && s.log[k].row == id
  }

  lemma StepCalls(s: State, cfg: Config, step: Step, s': State)
    requires Inv(s, cfg) && CallsSound(s) && IsStep(s, cfg, step, s')
    ensures CallsSound(s')
  {
    hide Inv, CallsSound, IsStep;
    match step
    case Begin(w, now, picked) => BeginCalls(s, cfg, w, now, picked, s');
    case Process(w, answer, accepted, clock) => ProcessCalls(s, cfg, w, answer, accepted, clock, s');
    case Commit(w) => CommitCalls(s, cfg, w, s');
    case Rollback(w) => RollbackCalls(s, cfg, w, s');
    case Insert(id, payload, createdAt) => InsertCalls(s, cfg, id, payload, createdAt, s');
    case Delete(ids) => DeleteCalls(s, cfg, ids, s');
  }

  lemma BeginCalls(s: State, cfg: Config, w: nat, now: int, picked: seq<Id>, s': State)
    requires CallsSound(s) && IsStep(s, cfg, Begin(w, now, picked), s')
    ensures CallsSound(s')
  {
    hide Picks;
    SameLog(s, s');
    forall v | v in s'.batches ensures BatchCallsSound(s', s'.batches[v]) {
      if v != w { BatchCallsKept(s, s', s.batches[v]); }
    }
    forall k | Counts(s', k) ensures IsPlaced(s', k) {
      assert Counts(s, k) && IsPlaced(s, k);
      if v :| v in s.batches && k in s.batches[v].calls { assert v in s'.batches && k in s'.batches[v].calls; }
    }
  }

  /** Answers that count in `s` count in `s'`, and the other way round. */
  lemma SameLog(s: State, s': State)
    requires s'.log == s.log && s'.rolledBack == s.rolledBack
    ensures forall k :: Counts(s', k) <==> Counts(s, k)
    ensures forall id :: HasCount(s, id) ==> HasCount(s', id)
  {
    forall id | HasCount(s, id) ensures HasCount(s', id) {
      var k :| Counts(s, k) && s.log[k].row == id;
      assert Counts(s', k);
    }
  }

  lemma BatchCallsKept(s: State, s': State, b: Batch)
    requires BatchCallsSound(s, b) && s.log <= s'.log && forall k :: k in b.calls ==> k !in s'.rolledBack
    ensures BatchCallsSound(s', b)
  {
    forall id | id in b.written && b.written[id].status.Published? ensures PublishedBy(s', b, id) {
      var k :| k in b.calls && k < |s.log| && s.log[k].ok && s.log[k].row == id;
    }
  }

  lemma InsertCalls(s: State, cfg: Config, id: Id, payload: string, createdAt: int, s': State)
    requires Inv(s, cfg) && CallsSound(s) && IsStep(s, cfg, Insert(id, payload, createdAt), s')
    ensures CallsSound(s')
  {
    hide Inv;
    SameLog(s, s');
    forall v | v in s'.batches ensures BatchCallsSound(s', s'.batches[v]) { BatchCallsKept(s, s', s.batches[v]); }
    forall k | Counts(s', k) ensures IsPlaced(s', k) {
      assert Counts(s, k) && IsPlaced(s, k);
      assert s.log[k].row != id;
    }
  }

  lemma DeleteCalls(s: State, cfg: Config, ids: set<Id>, s': State)
    requires CallsSound(s) && IsStep(s, cfg, Delete(ids), s')
    ensures CallsSound(s')
  {
    SameLog(s, s');
    forall v | v in s'.batches ensures BatchCallsSound(s', s'.batches[v]) { BatchCallsKept(s, s', s.batches[v]); }
    forall k | Counts(s', k) ensures IsPlaced(s', k) { assert Counts(s, k) && IsPlaced(s, k); }
  }

  lemma RollbackCalls(s: State, cfg: Config, w: nat, s': State)
    requires Inv(s, cfg) && CallsSound(s) && IsStep(s, cfg, Rollback(w), s')
    ensures CallsSound(s')
  {
    hide Inv;
    assert BatchCallsSound(s, s.batches[w]);
    forall v | v in s'.batches ensures BatchCallsSound(s', s'.batches[v]) {
      CallsApart(s, cfg, v, w);
      BatchCallsKept(s, s', s.batches[v]);
    }
    forall k | Counts(s', k) ensures Counts(s, k) && IsPlaced(s', k) {
      assert Counts(s, k) && IsPlaced(s, k);
      if v :| v in s.batches && k in s.batches[v].calls { assert v in s'.batches; }
    }
    WaitingCalls(s, cfg, w);
    forall id | id in s'.rows && s'.rows[id].status.Published? ensures HasCount(s', id) {
      assert HasCount(s, id);
      var k :| Counts(s, k) && s.log[k].row == id;
      assert Counts(s', k);
    }
  }

  /** No call was made by two open batches. */
  lemma CallsApart(s: State, cfg: Config, v: nat, w: nat)
    requires Inv(s, cfg) && CallsSound(s) && v in s.batches && w in s.batches && v != w
    ensures forall k :: k in s.batches[v].calls ==> k !in s.batches[w].calls
  {
    hide RowsSound, BatchSound;
    assert BatchCallsSound(s, s.batches[v]) && BatchCallsSound(s, s.batches[w]);
    forall k | k in s.batches[w].calls ensures !Holds(s.batches[v], s.log[k].row) {
      assert Holds(s.batches[w], s.log[k].row);
    }
  }

  /** The calls of an open batch are for rows that are not published yet. */
  lemma WaitingCalls(s: State, cfg: Config, w: nat)
    requires Inv(s, cfg) && CallsSound(s) && w in s.batches
    ensures forall k :: k in s.batches[w].calls ==>
      k < |s.log| && s.log[k].row in s.batches[w].written && s.log[k].row in s.rows && s.rows[s.log[k].row].status.Pending?
  {
    hide RowsSound, RowSound, RowWork, Delivered;
    assert BatchSound(s, cfg, s.batches[w]) && BatchCallsSound(s, s.batches[w]);
    forall k | k in s.batches[w].calls ensures Holds(s.batches[w], s.log[k].row) {}
  }

  lemma CommitCalls(s: State, cfg: Config, w: nat, s': State)
    requires Inv(s, cfg) && CallsSound(s) && IsStep(s, cfg, Commit(w), s')
    ensures CallsSound(s')
  {
    hide Inv;
    SameLog(s, s');
    var b := s.batches[w];
    assert BatchCallsSound(s, b);
    forall v | v in s'.batches ensures BatchCallsSound(s', s'.batches[v]) { BatchCallsKept(s, s', s.batches[v]); }
    forall k | Counts(s', k) ensures IsPlaced(s', k) {
      assert Counts(s, k) && IsPlaced(s, k);
      CommitPlaces(s, cfg, w, k, s');
    }
    forall id | id in s'.rows && s'.rows[id].status.Published? ensures HasCount(s', id) {
      if id in b.written {
        assert PublishedBy(s, b, id);
        var k :| k in b.calls && k < |s.log| && s.log[k].ok && s.log[k].row == id;
        assert Counts(s', k);
      }
    }
  }

  lemma CommitPlaces(s: State, cfg: Config, w: nat, k: int, s': State)
    requires Inv(s, cfg) && CallsSound(s) && IsStep(s, cfg, Commit(w), s') && Counts(s, k) && IsPlaced(s, k)
    ensures IsPlaced(s', k)
  {
    hide Inv, HasCount;
    var id := s.log[k].row;
    WaitingCalls(s, cfg, w);
    CommitKeepsPublished(s, cfg, w, s');
    if v :| v in s.batches && k in s.batches[v].calls {
      if v == w {
        assert BatchCallsSound(s, s.batches[w]);
        assert s'.rows[id] == s.batches[w].written[id];
      } else {
        assert v in s'.batches;
      }
    }
  }

  lemma CommitKeepsPublished(s: State, cfg: Config, w: nat, s': State)
    requires Inv(s, cfg) && IsStep(s, cfg, Commit(w), s')
    ensures s'.rows.Keys == s.rows.Keys
    ensures forall id :: id in s.rows && s.rows[id].status.Published? ==> s'.rows[id] == s.rows[id]
  {
    hide RowSound, RowWork, Delivered;
    assert BatchSound(s, cfg, s.batches[w]);
    forall id | id in s.batches[w].written ensures Holds(s.batches[w], id) {}
  }

  lemma ProcessCalls(s: State, cfg: Config, w: nat, answer: Answer, accepted: bool, clock: int, s': State)
    requires Inv(s, cfg) && CallsSound(s) && IsStep(s, cfg, Process(w, answer, accepted, clock), s')
    ensures CallsSound(s')
  {
    hide Inv, Processed;
    var b := s.batches[w];
    var id := b.todo[0];
    var n := |s.log|;
    NoCountYet(s, cfg, w);
    forall k | 0 <= k < n ensures Counts(s', k) <==> Counts(s, k) { assert s'.log[k] == s.log[k]; }
    forall k | n <= k < |s'.log| ensures k == n && s'.log[k] == Call(id, s.rows[id].payload, accepted, answer.Accepted?) {}
    NewBatchCalls(s, cfg, w, answer, accepted, clock, s');
    forall v | v in s'.batches ensures BatchCallsSound(s', s'.batches[v]) {
      if v != w { BatchCallsKept(s, s', s.batches[v]); }
    }
    forall k | Counts(s', k) ensures IsPlaced(s', k) {
      if k < n { StillPlaced(s, cfg, w, answer, accepted, clock, s', k); } else { NewIsPlaced(s, cfg, w, answer, accepted, clock, s'); }
    }
    forall k, l | Counts(s', k) && Counts(s', l) && s'.log[k].row == s'.log[l].row ensures k == l {
      assert k < n ==> Counts(s, k);
      assert l < n ==> Counts(s, l);
    }
    forall x | x in s'.rows && s'.rows[x].status.Published? ensures HasCount(s', x) {
      assert HasCount(s, x);
      var k :| Counts(s, k) && s.log[k].row == x;
      assert Counts(s', k) && s'.log[k] == s.log[k];
    }
  }

  /** No answer counts yet for a row that is still to be processed. */
  lemma NoCountYet(s: State, cfg: Config, w: nat)
    requires Inv(s, cfg) && CallsSound(s) && w in s.batches && s.batches[w].todo != []
    ensures s.batches[w].todo[0] in s.issued && s.batches[w].todo[0] !in s.batches[w].written
    ensures forall k :: Counts(s, k) ==> s.log[k].row != s.batches[w].todo[0]
  {
    hide RowSound, RowWork, Delivered;
    var id := s.batches[w].todo[0];
    assert BatchSound(s, cfg, s.batches[w]) && Holds(s.batches[w], id);
    forall k | Counts(s, k) ensures s.log[k].row != id {
      assert IsPlaced(s, k);
      if v :| v in s.batches && k in s.batches[v].calls {
        assert BatchCallsSound(s, s.batches[v]) && Holds(s.batches[v], s.log[k].row);
      }
    }
  }

  lemma NewBatchCalls(s: State, cfg: Config, w: nat, answer: Answer, accepted: bool, clock: int, s': State)
    requires Inv(s, cfg) && CallsSound(s) && IsStep(s, cfg, Process(w, answer, accepted, clock), s')
    ensures BatchCallsSound(s', s'.batches[w])
  {
    hide Inv, Processed, CallsSound;
    var b := s.batches[w];
    NoCountYet(s, cfg, w);
    OfBatch(s, w);
    RowOutcome(s, cfg, w, answer, clock);
    NextBatchCalls(s, cfg, b, answer, accepted, clock, s');
  }

  lemma OfBatch(s: State, w: nat)
    requires CallsSound(s) && w in s.batches
    ensures BatchCallsSound(s, s.batches[w]) && forall k :: k in s.rolledBack ==> k < |s.log|
  {
  }

  lemma RowOutcome(s: State, cfg: Config, w: nat, answer: Answer, clock: int)
    requires Inv(s, cfg) && w in s.batches && s.batches[w].todo != [] && s.batches[w].todo[0] in s.rows
    ensures
      var row := s.rows[s.batches[w].todo[0]];
      Processed(cfg, row, answer, clock).status.Published? <==> answer.Accepted? && cfg.isJson(row.payload)
  {
    hide RowWork, Delivered, Processed;
    assert BatchSound(s, cfg, s.batches[w]) && Holds(s.batches[w], s.batches[w].todo[0]);
    ProcessedSound(cfg, s.rows[s.batches[w].todo[0]], answer, clock);
  }

  lemma NextBatchCalls(s: State, cfg: Config, b: Batch, answer: Answer, accepted: bool, clock: int, s': State)
    requires BatchCallsSound(s, b) && b.todo != [] && b.todo[0] in s.rows && b.todo[0] !in b.written
    requires forall k :: k in s.rolledBack ==> k < |s.log|
    requires
      var row := s.rows[b.todo[0]];
      s'.log == s.log + CallsFor(cfg, b.todo[0], row, answer, accepted) && s'.rolledBack == s.rolledBack &&
      (Processed(cfg, row, answer, clock).status.Published? <==> answer.Accepted? && cfg.isJson(row.payload))
    ensures BatchCallsSound(s', NextBatch(cfg, b, s.rows[b.todo[0]], answer, clock, |s.log|))
  {
    hide Processed;
    var id := b.todo[0];
    var b' := NextBatch(cfg, b, s.rows[id], answer, clock, |s.log|);
    forall x | x in b'.written && b'.written[x].status.Published? ensures PublishedBy(s', b', x) {
      if x == id {
        assert |s.log| in b'.calls && s'.log[|s.log|].ok;
      } else {
        assert PublishedBy(s, b, x);
        var k :| k in b.calls && k < |s.log| && s.log[k].ok && s.log[k].row == x;
        assert k in b'.calls && s'.log[k] == s.log[k];
      }
    }
  }

  lemma StillPlaced(s: State, cfg: Config, w: nat, answer: Answer, accepted: bool, clock: int, s': State, k: int)
    requires CallsSound(s) && IsStep(s, cfg, Process(w, answer, accepted, clock), s') && Counts(s, k)
    ensures 0 <= k < |s'.log| && IsPlaced(s', k)
  {
    hide Processed;
    assert IsPlaced(s, k) && s'.log[k] == s.log[k];
    if v :| v in s.batches && k in s.batches[v].calls {
      assert v in s'.batches && k in s'.batches[v].calls;
    }
  }

  lemma NewIsPlaced(s: State, cfg: Config, w: nat, answer: Answer, accepted: bool, clock: int, s': State)
    requires Inv(s, cfg) && CallsSound(s) && IsStep(s, cfg, Process(w, answer, accepted, clock), s') && |s'.log| > |s.log|
    ensures IsPlaced(s', |s.log|)
  {
    hide Inv, Processed;
    NoCountYet(s, cfg, w);
    assert w in s'.batches && |s.log| in s'.batches[w].calls;
  }

  lemma NothingYet(cfg: Config)
    ensures Inv(Initial(), cfg) && CallsSound(Initial())
  {
  }

  lemma {:induction false} RunCalls(states: seq<State>, cfg: Config, steps: seq<Step>, k: nat)
    requires IsRun(states, cfg, steps) && states[0] == Initial() && k < |states|
    ensures CallsSound(states[k])
  {
    hide IsStep, Inv, CallsSound;
    NothingYet(cfg);
    if k > 0 {
      RunCalls(states, cfg, steps, k - 1);
      RunInv(states, cfg, steps, k - 1);
      StepCalls(states[k - 1], cfg, steps[k - 1], states[k]);
    }
  }

  /** The publisher has accepted the row in exactly one call. */
  ghost predicate AcceptedOnce(log: seq<Call>, id: Id) {
    exists k :: 0 <= k < |log| && IsAcceptance(log[k], id) &&
      forall l :: 0 <= l < |log| && IsAcceptance(log[l], id) ==> l == k
  }

  /** In every run a published row was accepted exactly once if and only if no acceptance of it was
      lost: answered with an error, or made in a batch that was rolled back. */
  lemma AcceptedOnceUnlessLost(states: seq<State>, cfg: Config, steps: seq<Step>, n: nat, id: Id)
    requires IsRun(states, cfg, steps) && states[0] == Initial() && n < |states|
    requires id in states[n].rows && states[n].rows[id].status.Published?
    ensures
      var s := states[n];
      AcceptedOnce(s.log, id) <==> forall k :: 0 <= k < |s.log| && IsAcceptance(s.log[k], id) ==> !IsLost(s, k)
  {
    hide IsStep;
    RunCalls(states, cfg, steps, n);
    var s := states[n];
    assert HasCount(s, id);
    var k :| Counts(s, k) && s.log[k].row == id;
    assert IsAcceptance(s.log[k], id) && !IsLost(s, k);
    forall l | 0 <= l < |s.log| && IsAcceptance(s.log[l], id) && !IsLost(s, l) ensures l == k {
      assert Counts(s, l);
    }
  }

  // ---------- how an acceptance is lost ----------

  lemma PicksOnly(cfg: Config, s: State, row: Row, now: int)
    requires s.rows == map[0 := row] && Due(row, now) && s.batches.Keys == {}
    ensures Picks(s.rows, LockedIds(s), now, BatchLimit(cfg), [0])
  {
    assert LockedIds(s) == {};
  }

  lemma AcceptedRow(cfg: Config, row: Row)
    requires cfg.isJson(row.payload) && row.status.Pending?
    ensures Processed(cfg, row, Accepted, 0) == MarkPublished(row)
  {
  }

  lemma AcceptedTwice(log: seq<Call>, payload: string, ok: bool)
    requires log == [Call(0, payload, true, ok), Call(0, payload, true, true)]
    ensures !AcceptedOnce(log, 0)
  {
    assert IsAcceptance(log[0], 0) && IsAcceptance(log[1], 0);
  }

  /** A batch with the one row, processed and committed. */
  lemma OneBatch(cfg: Config, s: State, row: Row, answer: Answer, accepted: bool, now: int) returns (s1: State, s2: State)
    requires s.rows == map[0 := row] && Due(row, now) && s.batches.Keys == {} && cfg.isJson(row.payload) && (answer.Accepted? ==> accepted)
    ensures IsStep(s, cfg, Begin(0, now, [0]), s1) && IsStep(s1, cfg, Process(0, answer, accepted, 0), s2)
    ensures s1 == s.(batches := s1.batches) && s2.rows == s.rows && s2.rolledBack == s.rolledBack && s2.issued == s.issued
    ensures s2.log == s.log + [Call(0, row.payload, accepted, answer.Accepted?)]
    ensures s2.batches == map[0 := Batch([], map[0 := Processed(cfg, row, answer, 0)], {|s.log|})]
  {
    hide Picks, Due, Processed;
    PicksOnly(cfg, s, row, now);
    var one: seq<Id> := [0];
    assert one[1..] == [];
    var b := Batch(one, map[], {});
    s1 := s.(batches := map[0 := b]);
    assert s.batches[0 := b] == s1.batches;
    var b' := NextBatch(cfg, b, row, answer, 0, |s.log|);
    s2 := s1.(batches := map[0 := b'], log := s.log + CallsFor(cfg, 0, row, answer, accepted));
    assert s1.batches[0 := b'] == s2.batches;
    assert b'.written == map[0 := Processed(cfg, row, answer, 0)] && b'.calls == {|s.log|};
  }

  lemma Closed(s: State, cfg: Config, b: Batch)
    requires s.batches == map[0 := b] && b.todo == []
    ensures IsStep(s, cfg, Commit(0), s.(rows := s.rows + b.written, batches := s.batches - {0}))
    ensures IsStep(s, cfg, Rollback(0), s.(batches := s.batches - {0}, rolledBack := s.rolledBack + b.calls))
    ensures (s.batches - {0}).Keys == {}
  {
  }

  /** With a rollback the publisher may accept a row twice: the table forgets the answers of a lost
      batch, the publisher does not. */
  lemma DeliveredTwice(cfg: Config, payload: string) returns (states: seq<State>, steps: seq<Step>)
    requires cfg.isJson(payload)
    ensures IsRun(states, cfg, steps) && states[0] == Initial() && 0 in states[|steps|].rows && states[|steps|].rows[0].status.Published?
    ensures !AcceptedOnce(states[|steps|].log, 0) && forall k :: 0 <= k < |states[|steps|].log| ==> states[|steps|].log[k].ok
  {
    hide Picks, Processed, IsStep;
    var row := NewRow(payload, 0);
    var s1 := Initial().(rows := map[0 := row], issued := {0});
    FirstRow(cfg, payload, s1);
    var s2, s3 := OneBatch(cfg, s1, row, Accepted, true, 0);
    Closed(s3, cfg, s3.batches[0]);
    var s4 := s3.(batches := s3.batches - {0}, rolledBack := s3.rolledBack + s3.batches[0].calls);
    var s5, s6 := OneBatch(cfg, s4, row, Accepted, true, 0);
    Closed(s6, cfg, s6.batches[0]);
    var s7 := s6.(rows := s6.rows + s6.batches[0].written, batches := s6.batches - {0});
    AcceptedRow(cfg, row);
    AcceptedTwice(s7.log, payload, true);
    states := [Initial(), s1, s2, s3, s4, s5, s6, s7];
    steps := [Insert(0, payload, 0), Begin(0, 0, [0]), Process(0, Accepted, true, 0), Rollback(0),
              Begin(0, 0, [0]), Process(0, Accepted, true, 0), Commit(0)];
  }

  lemma FirstRow(cfg: Config, payload: string, s: State)
    requires s == Initial().(rows := map[0 := NewRow(payload, 0)], issued := {0})
    ensures IsStep(Initial(), cfg, Insert(0, payload, 0), s)
  {
    assert Initial().rows[0 := NewRow(payload, 0)] == s.rows;
  }

  /** Without any rollback it may happen too: a call that times out after the message was accepted
      counts as a failure, and the row is published again. */
  lemma TimedOutAndPublishedAgain(cfg: Config, payload: string) returns (states: seq<State>, steps: seq<Step>)
    requires cfg.isJson(payload) && AttemptLimit(cfg) > 1
    ensures IsRun(states, cfg, steps) && states[0] == Initial() && 0 in states[|steps|].rows && states[|steps|].rows[0].status.Published?
    ensures !AcceptedOnce(states[|steps|].log, 0) && forall step :: step in steps ==> !step.Rollback?
  {
    hide Picks, IsStep;
    var row := NewRow(payload, 0);
    var s1 := Initial().(rows := map[0 := row], issued := {0});
    FirstRow(cfg, payload, s1);
    var s2, s3 := OneBatch(cfg, s1, row, Refused("timeout"), true, 0);
    Closed(s3, cfg, s3.batches[0]);
    var row' := MarkRefused(cfg, row, "timeout", 0);
    var s4 := s3.(rows := s3.rows + s3.batches[0].written, batches := s3.batches - {0});
    assert s4.rows == map[0 := row'];
    var s5, s6 := OneBatch(cfg, s4, row', Accepted, true, row'.nextRetry.value);
    Closed(s6, cfg, s6.batches[0]);
    var s7 := s6.(rows := s6.rows + s6.batches[0].written, batches := s6.batches - {0});
    AcceptedRow(cfg, row');
    AcceptedTwice(s7.log, payload, false);
    states := [Initial(), s1, s2, s3, s4, s5, s6, s7];
    steps := [Insert(0, payload, 0), Begin(0, 0, [0]), Process(0, Refused("timeout"), true, 0), Commit(0),
              Begin(0, row'.nextRetry.value, [0]), Process(0, Accepted, true, 0), Commit(0)];
  }
}
