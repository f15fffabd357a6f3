/** One run of the outbox task, as the worker executes it. */
module OutboxHandler {
  import opened Basics
  import opened Lists
  import opened Backoff
  import opened OutboxWorker

  class OutboxTable {
    var rows: map<Id, Row>

    constructor ()
      ensures rows == map[]
    {
      rows := map[];
    }
  }

  /** The message broker. It answers as it likes, may accept a message although the call ends in an
      error, and remembers every call. */
  class Publisher {
    ghost var log: seq<Call>

    constructor ()
      ensures log == []
    {
      log := [];
    }

    method PublishProfileChange(id: Id, payload: string) returns (answer: Answer, ghost accepted: bool)
      modifies this
      ensures (answer.Accepted? ==> accepted) && log == old(log) + [Call(id, payload, accepted, answer.Accepted?)]
    {
      var ok: bool := *;
      var reason: string := *;
      ghost var unheard: bool := *;
      answer, accepted := if ok then Accepted else Refused(reason), ok || unheard;
      log := log + [Call(id, payload, accepted, ok)];
    }
  }

  method Oldest(rows: map<Id, Row>, ids: set<Id>) returns (id: Id)
    requires ids != {} && ids <= rows.Keys
    ensures id in ids && forall x :: x in ids ==> rows[id].createdAt <= rows[x].createdAt
  {
    id :| id in ids;
    var rest := ids - {id};
    while rest != {}
      invariant rest <= ids && id in ids
      invariant forall x :: x in ids && x !in rest ==> rows[id].createdAt <= rows[x].createdAt
    {
      var x :| x in rest;
      rest := rest - {x};
      if rows[x].createdAt < rows[id].createdAt {
        id := x;
      }
    }
  }

  function DueIds(rows: map<Id, Row>, locked: set<Id>, now: int): set<Id> {
    set id | id in rows && Due(rows[id], now) && id !in locked
  }

  /** `ids` are the oldest of the due rows, and `rest` the others. */
  ghost predicate Chosen(rows: map<Id, Row>, due: set<Id>, rest: set<Id>, ids: seq<Id>) {
    rest <= due <= rows.Keys && (forall i :: 0 <= i < |ids| ==> ids[i] in rows) && Distinct(ids) && (forall id :: id in due <==> id in rest || id in ids) &&
    (forall i :: 0 <= i < |ids| ==> ids[i] !in rest) &&
    (forall i, j :: 0 <= i < j < |ids| ==> rows[ids[i]].createdAt <= rows[ids[j]].createdAt) &&
    forall i, x :: 0 <= i < |ids| && x in rest ==> rows[ids[i]].createdAt <= rows[x].createdAt
  }

  method SelectDue(rows: map<Id, Row>, locked: set<Id>, now: int, limit: nat) returns (ids: seq<Id>)
    ensures Picks(rows, locked, now, limit, ids)
    ensures forall i :: 0 <= i < |ids| ==>
      ids[i] in rows && rows[ids[i]].status == Pending && (rows[ids[i]].nextRetry.Some? ==> rows[ids[i]].nextRetry.value <= now) && ids[i] !in locked
  {
    var due := DueIds(rows, locked, now);
    var rest := due;
    ids := [];
    while rest != {} && |ids| < limit
      invariant due == DueIds(rows, locked, now) && rest <= due
      invariant forall id :: id in ids ==> id in rows
      invariant Chosen(rows, due, rest, ids) && |ids| <= limit
    {
      hide Due;
      var id := Oldest(rows, rest);
      ids := ids + [id];
      rest := rest - {id};
    }
  }

  /** m, ..., n - 1. */
  function Between(m: nat, n: nat): set<nat> {
    if n <= m then {} else Between(m, n - 1) + {n - 1}
  }

  /** The machine's state while worker `w` has `todo` left. */
  function Working(s: State, w: nat, todo: seq<Id>, written: map<Id, Row>, log: seq<Call>): State {
    s.(batches := s.batches[w := Batch(todo, written, Between(|s.log|, |log|))], log := log)
  }

  /** The machine's state after a rollback. */
  function Undone(s: State, log: seq<Call>): State {
    s.(log := log, rolledBack := s.rolledBack + Between(|s.log|, |log|))
  }

  /** The worker has opened its batch and processed rows since. */
  ghost predicate InBatch(steps: seq<Step>, w: nat, now: int) {
    |steps| >= 1 && steps[0].Begin? && steps[0].worker == w && steps[0].now == now &&
    forall k :: 1 <= k < |steps| ==> steps[k].Process? && steps[k].worker == w
  }

  /** The worker opened a batch, processed rows, all of them if it committed, and closed the batch. */
  ghost predicate IsOneBatch(steps: seq<Step>, w: nat, now: int, committed: bool) {
    var n := |steps| - 1;
    n >= 1 && InBatch(steps[..n], w, now) && steps[n] == (if committed then Commit(w) else Rollback(w)) &&
    (committed ==> n - 1 == |steps[0].picked|)
  }

  lemma RunOneMore(states: seq<State>, cfg: Config, steps: seq<Step>, step: Step, s': State)
    requires IsRun(states, cfg, steps) && IsStep(states[|steps|], cfg, step, s')
    ensures IsRun(states + [s'], cfg, steps + [step])
  {
    hide IsStep;
  }

  lemma BeginIsStep(s: State, cfg: Config, w: nat, now: int, list: seq<Id>)
    requires w !in s.batches && Picks(s.rows, LockedIds(s), now, BatchLimit(cfg), list)
    ensures IsStep(s, cfg, Begin(w, now, list), Working(s, w, list, map[], s.log))
  {
    hide Picks;
    assert Between(|s.log|, |s.log|) == {};
  }

  lemma ProcessIsStep(s: State, cfg: Config, w: nat, todo: seq<Id>, written: map<Id, Row>, log: seq<Call>, answer: Answer, accepted: bool, clock: int)
    requires todo != [] && todo[0] in s.rows && |s.log| <= |log| && (answer.Accepted? ==> accepted)
    ensures
      var row := s.rows[todo[0]];
      IsStep(Working(s, w, todo, written, log), cfg, Process(w, answer, accepted, clock),
             Working(s, w, todo[1..], written[todo[0] := Processed(cfg, row, answer, clock)], log + CallsFor(cfg, todo[0], row, answer, accepted)))
  {
    hide Processed;
    var b := Batch(todo, written, Between(|s.log|, |log|));
    var before := s.batches[w := b];
    var b' := NextBatch(cfg, b, s.rows[todo[0]], answer, clock, |log|);
    assert b'.calls == Between(|s.log|, |log + CallsFor(cfg, todo[0], s.rows[todo[0]], answer, accepted)|);
    assert before[w := b'] == s.batches[w := b'];
  }

  lemma CloseIsStep(s: State, cfg: Config, w: nat, todo: seq<Id>, written: map<Id, Row>, log: seq<Call>)
    requires w !in s.batches
    ensures IsStep(Working(s, w, todo, written, log), cfg, Rollback(w), Undone(s, log))
    ensures todo == [] ==> IsStep(Working(s, w, todo, written, log), cfg, Commit(w), s.(rows := s.rows + written, log := log))
  {
    assert s.batches[w := Batch(todo, written, Between(|s.log|, |log|))] - {w} == s.batches;
  }

  lemma HeadIsThere(s: State, cfg: Config, w: nat, todo: seq<Id>, written: map<Id, Row>, log: seq<Call>)
    requires Inv(Working(s, w, todo, written, log), cfg) && todo != []
    ensures todo[0] in s.rows
  {
    GuardHits(Working(s, w, todo, written, log), cfg, w, NewRow("", 0));
  }

  class Handlers {
    const cfg: Config
    const table: OutboxTable
    const publisher: Publisher

    constructor (cfg: Config, table: OutboxTable, publisher: Publisher)
      ensures this.cfg == cfg && this.table == table && this.publisher == publisher
    {
      this.cfg, this.table, this.publisher := cfg, table, publisher;
    }

    /** A batch either commits the outcome of every call or, when a statement fails after `failAt`
        rows, leaves the table as it was; the calls made until then stay made. Seen from outside it
        is a run of the machine. */
    method HandleOutboxBatch(w: nat, now: int, locked: set<Id>, failAt: nat, ghost s: State)
      returns (committed: bool, ghost states: seq<State>, ghost steps: seq<Step>)
      requires Inv(s, cfg) && w !in s.batches && s.rows == table.rows && s.log == publisher.log && locked == LockedIds(s)
      modifies table, publisher
      ensures IsRun(states, cfg, steps) && states[0] == s
      ensures states[|steps|] == if committed then s.(rows := table.rows, log := publisher.log) else Undone(s, publisher.log)
      ensures IsOneBatch(steps, w, now, committed)
      ensures committed <==> failAt > |steps[0].picked|
      ensures !committed ==> table.rows == old(table.rows) && |steps| == failAt + 2
    {
      hide IsStep, Inv, Processed, Picks, IsRun, CallsFor;
      var list := SelectDue(table.rows, locked, now, BatchLimit(cfg));
      var written: map<Id, Row> := map[];
      BeginIsStep(s, cfg, w, now, list);
      states, steps := [s], [];
      StartRun(s, cfg);
      RunOneMore(states, cfg, steps, Begin(w, now, list), Working(s, w, list, map[], s.log));
      StepInv(s, cfg, Begin(w, now, list), Working(s, w, list, map[], s.log));
      states, steps := states + [Working(s, w, list, map[], s.log)], steps + [Begin(w, now, list)];
      assert list[0..] == list;
      for i := 0 to |list|
        invariant table.rows == s.rows
        invariant IsRun(states, cfg, steps) && |states| == i + 2 && |steps| == i + 1 && states[0] == s
        invariant |s.log| <= |publisher.log|
        invariant InBatch(steps, w, now) && steps[0].picked == list && i <= failAt
        invariant states[i + 1] == Working(s, w, list[i..], written, publisher.log)
        invariant Inv(states[i + 1], cfg)
      {
        if i == failAt {
          CloseIsStep(s, cfg, w, list[i..], written, publisher.log);
          RunOneMore(states, cfg, steps, Rollback(w), Undone(s, publisher.log));
          return false, states + [Undone(s, publisher.log)], steps + [Rollback(w)];
        }
        ghost var before, logBefore := written, publisher.log;
        HeadIsThere(s, cfg, w, list[i..], written, publisher.log);
        var id := list[i];
        var row := table.rows[id];
        var answer, clock := Accepted, now;
        ghost var accepted := true;
        if !cfg.isJson(row.payload) {
          written := written[id := Guarded(row, MarkInvalid(row))];
        } else {
          answer, accepted := publisher.PublishProfileChange(id, row.payload);
          clock := *;
          if answer.Refused? {
            var newCount := row.attempts + 1;
            var nextRetry: Option<int> := None;
            if newCount < AttemptLimit(cfg) {
              var delay := OutboxPublishBackoff(newCount, BaseOr(cfg.backoffBase, 1_000_000_000));
              nextRetry := Some(clock + delay);
            }
            var status := if row.attempts + 1 >= AttemptLimit(cfg) then Failed else Pending;
            var updated := row.(attempts := row.attempts + 1, lastError := Some(answer.reason), nextRetry := nextRetry, status := status);
            written := written[id := Guarded(row, updated)];
          } else {
            written := written[id := Guarded(row, MarkPublished(row))];
          }
        }
        WrittenIsProcessed(cfg, id, row, answer, accepted, clock);
        assert publisher.log == logBefore + CallsFor(cfg, id, row, answer, accepted);
        assert written == before[id := Processed(cfg, row, answer, clock)];
        ProcessIsStep(s, cfg, w, list[i..], before, logBefore, answer, accepted, clock);
        assert list[i..][1..] == list[i + 1..];
        ghost var next := Working(s, w, list[i + 1..], written, publisher.log);
        RunOneMore(states, cfg, steps, Process(w, answer, accepted, clock), next);
        StepInv(states[i + 1], cfg, Process(w, answer, accepted, clock), next);
        states, steps := states + [next], steps + [Process(w, answer, accepted, clock)];
      }
      CloseIsStep(s, cfg, w, [], written, publisher.log);
      assert list[|list|..] == [];
      if failAt == |list| {
        RunOneMore(states, cfg, steps, Rollback(w), Undone(s, publisher.log));
        return false, states + [Undone(s, publisher.log)], steps + [Rollback(w)];
      }
      RunOneMore(states, cfg, steps, Commit(w), s.(rows := s.rows + written, log := publisher.log));
      table.rows := table.rows + written;
      return true, states + [s.(rows := table.rows, log := publisher.log)], steps + [Commit(w)];
    }
  }

  lemma StartRun(s: State, cfg: Config)
    ensures IsRun([s], cfg, [])
  {
  }

  lemma WrittenIsProcessed(cfg: Config, id: Id, row: Row, answer: Answer, accepted: bool, clock: int)
    ensures !cfg.isJson(row.payload) ==>
      Processed(cfg, row, answer, clock) == Guarded(row, MarkInvalid(row)) && CallsFor(cfg, id, row, answer, accepted) == []
    ensures cfg.isJson(row.payload) ==>
      CallsFor(cfg, id, row, answer, accepted) == [Call(id, row.payload, accepted, answer.Accepted?)] &&
      Processed(cfg, row, answer, clock) ==
        Guarded(row, if answer.Accepted? then MarkPublished(row) else MarkRefused(cfg, row, answer.reason, clock))
  {
  }
}
