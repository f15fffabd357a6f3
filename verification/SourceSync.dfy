/** Reading the changes of another system. A run reads from the stored cursor, records the events it
    has not seen, and moves the cursor and the watermark. It may end at any moment before it
    commits, and runs that find no checkpoint yet do not wait for each other. */
module SourceSync {
  import opened Basics
  import opened Maps
  import opened Text

  // ---------- the source ----------

  /** A time; the zero time stands for an absent one. */
  type Time = int
  const ZERO_TIME: Time := 0

  datatype Record = Record(eventId: string, externalId: string, updatedAt: Time, payload: Option<string>)

  datatype Batch = Batch(records: seq<Record>, next: string, high: Time)

  /** A source keeps its records in a fixed order, and a cursor stands for a position in it. */
  datatype Source = Source(records: seq<Record>, position: string -> nat, isJson: string -> bool)

  ghost predicate IsSource(src: Source) {
    src.position("") == 0 && forall c :: src.position(c) <= |src.records|
  }

  /** The batch holds the records from the cursor on up to where its next cursor stands; a batch
      without a next cursor holds none. */
  ghost predicate IsAnswer(src: Source, cursor: string, batch: Batch) {
    var p, q := src.position(cursor), src.position(NextCursor(cursor, batch));
    p <= q <= |src.records| && batch.records == src.records[p..q]
  }

  // ---------- one run ----------

  datatype Applied = Applied(externalId: string, updatedAt: Time, payload: string)

  datatype Checkpoint = Checkpoint(cursor: string, watermark: Option<Time>)

  predicate Usable(src: Source, r: Record) {
    TrimSpace(r.eventId) != "" && TrimSpace(r.externalId) != "" && (r.payload.Some? ==> src.isJson(r.payload.value))
  }

  function AppliedRow(r: Record, now: Time): Applied {
    Applied(r.externalId, if r.updatedAt == ZERO_TIME then now else r.updatedAt, if r.payload.None? then "{}" else r.payload.value)
  }

  /** INSERT ... ON CONFLICT DO NOTHING. */
  function InsertOne(src: Source, applied: map<string, Applied>, r: Record, now: Time): map<string, Applied> {
    if !Usable(src, r) || r.eventId in applied then applied else applied[r.eventId := AppliedRow(r, now)]
  }

  function InsertAll(src: Source, applied: map<string, Applied>, records: seq<Record>, now: Time): map<string, Applied>
    decreases |records|
  {
    if records == [] then applied
    else
      var n := |records| - 1;
      InsertOne(src, InsertAll(src, applied, records[..n], now), records[n], now)
  }

  function NextCursor(cursor: string, batch: Batch): string {
    if TrimSpace(batch.next) != "" then TrimSpace(batch.next) else cursor
  }

  function Watermark(last: Option<Time>, high: Time): Time {
    if last.Some? && last.value > high then last.value else high
  }

  function NullableTime(t: Time): Option<Time> {
    if t == ZERO_TIME then None else Some(t)
  }

  function Greatest(a: Option<Time>, b: Option<Time>): Option<Time> {
    if a.None? then b else if b.None? then a else Some(if a.value < b.value then b.value else a.value)
  }

  /** INSERT ... ON CONFLICT DO UPDATE. */
  function Upsert(old': Option<Checkpoint>, cursor: string, watermark: Option<Time>): Checkpoint {
    Checkpoint(cursor, if old'.None? then watermark else Greatest(old'.value.watermark, watermark))
  }

  class SyncTables {
    var checkpoint: Option<Checkpoint>
    var applied: map<string, Applied>

    constructor ()
      ensures checkpoint == None && applied == map[]
    {
      checkpoint, applied := None, map[];
    }

    /** A run that nobody disturbs. `answer` is what the source returns, if it returns anything; a
        run that `fails` ends before its commit. */
    method SyncTenantSource(src: Source, answer: Option<Batch>, now: Time, fails: bool) returns (committed: bool)
      modifies this
      ensures committed <==> answer.Some? && !fails
      ensures !committed ==> checkpoint == old(checkpoint) && applied == old(applied)
      ensures committed ==>
        var (cursor, last) := Read(old(checkpoint));
        applied == InsertAll(src, old(applied), answer.value.records, now) &&
        checkpoint == Some(Upsert(old(checkpoint), NextCursor(cursor, answer.value), NullableTime(Watermark(last, answer.value.high))))
      ensures committed ==>
        Records(src, old(applied), answer.value.records, now, applied) && checkpoint.Some? &&
        checkpoint.value.cursor ==
          if TrimSpace(answer.value.next) != "" then TrimSpace(answer.value.next)
          else if old(checkpoint).Some? then old(checkpoint.value.cursor) else ""
    {
      hide TrimSpace, InsertOne, Records;
      var cursor, last := "", None;
      if checkpoint.Some? {
        cursor, last := checkpoint.value.cursor, checkpoint.value.watermark;
      }
      if answer.None? {
        return false;
      }
      var batch := answer.value;
      var inserted := applied;
      for i := 0 to |batch.records|
        invariant applied == old(applied) && checkpoint == old(checkpoint)
        invariant inserted == InsertAll(src, old(applied), batch.records[..i], now)
      {
        InsertNext(src, applied, batch.records, i, now, inserted);
        var item := batch.records[i];
        if TrimSpace(item.eventId) == "" || TrimSpace(item.externalId) == "" {
          continue;
        }
        if item.payload.None? {
          item := item.(payload := Some("{}"));
        } else if !src.isJson(item.payload.value) {
          continue;
        }
        if item.updatedAt == ZERO_TIME {
          item := item.(updatedAt := now);
        }
        if item.eventId !in inserted {
          inserted := inserted[item.eventId := Applied(item.externalId, item.updatedAt, item.payload.value)];
        }
      }
      assert batch.records[..|batch.records|] == batch.records;
      AllRecorded(src, applied, batch.records, now);
      var watermark := batch.high;
      if last.Some? && last.value > watermark {
        watermark := last.value;
      }
      var nextCursor := cursor;
      if TrimSpace(batch.next) != "" {
        nextCursor := TrimSpace(batch.next);
      }
      if fails {
        return false;
      }
      applied := inserted;
      checkpoint := Some(Upsert(checkpoint, nextCursor, NullableTime(watermark)));
      return true;
    }
  }

  /** A record counts when both its ids are there and its payload, if it has one, is JSON. */
  predicate IsTaken(src: Source, r: Record) {
    TrimSpace(r.eventId) != "" && TrimSpace(r.externalId) != "" && (r.payload.Some? ==> src.isJson(r.payload.value))
  }

  predicate IsTakenAt(src: Source, records: seq<Record>, i: int, id: string) {
    0 <= i < |records| && IsTaken(src, records[i]) && records[i].eventId == id
  }

  /** What was there stays; of each new event id among the records that count, the first one is
      recorded: with its time, or the present if it has none, and its payload, or an empty object. */
  ghost predicate Records(src: Source, before: map<string, Applied>, records: seq<Record>, now: Time, after: map<string, Applied>) {
    (forall id :: id in after <==> id in before || exists i :: IsTakenAt(src, records, i, id)) &&
    (forall id :: id in before ==> id in after && after[id] == before[id]) &&
    forall i :: 0 <= i < |records| && IsTaken(src, records[i]) && records[i].eventId !in before &&
                (forall j :: 0 <= j < i ==> !IsTakenAt(src, records, j, records[i].eventId)) ==>
      records[i].eventId in after &&
      after[records[i].eventId] == Applied(records[i].externalId, if records[i].updatedAt == 0 then now else records[i].updatedAt,
                                           if records[i].payload.None? then "{}" else records[i].payload.value)
  }

  lemma {:induction false} AllRecorded(src: Source, applied: map<string, Applied>, records: seq<Record>, now: Time)
    ensures Records(src, applied, records, now, InsertAll(src, applied, records, now))
    decreases |records|
  {
    hide Records, InsertOne;
    if records == [] {
      NothingRecorded(src, applied, now);
    } else {
      var n := |records| - 1;
      AllRecorded(src, applied, records[..n], now);
      OneRecorded(src, applied, records, now, InsertAll(src, applied, records[..n], now));
    }
  }

  lemma NothingRecorded(src: Source, applied: map<string, Applied>, now: Time)
    ensures Records(src, applied, [], now, applied)
  {
  }

  lemma OneRecorded(src: Source, before: map<string, Applied>, records: seq<Record>, now: Time, mid: map<string, Applied>)
    requires records != [] && Records(src, before, records[..|records| - 1], now, mid)
    ensures Records(src, before, records, now, InsertOne(src, mid, records[|records| - 1], now))
  {
    hide TrimSpace, IsTaken;
    var n := |records| - 1;
    var (r, after) := (records[n], InsertOne(src, mid, records[n], now));
    assert IsTaken(src, r) <==> Usable(src, r) by { TakenIsUsable(src, r); }
    hide Usable;
    forall id, i ensures IsTakenAt(src, records, i, id) <==> IsTakenAt(src, records[..n], i, id) || (i == n && IsTaken(src, r) && r.eventId == id) {}
    forall id ensures id in after <==> id in before || exists i :: IsTakenAt(src, records, i, id) {
      if i :| IsTakenAt(src, records[..n], i, id) { assert IsTakenAt(src, records, i, id); }
      if IsTaken(src, r) && r.eventId == id { assert IsTakenAt(src, records, n, id); }
    }
    forall i | 0 <= i < |records| && IsTaken(src, records[i]) && records[i].eventId !in before &&
               (forall j :: 0 <= j < i ==> !IsTakenAt(src, records, j, records[i].eventId))
      ensures records[i].eventId in after &&
        after[records[i].eventId] == Applied(records[i].externalId, if records[i].updatedAt == 0 then now else records[i].updatedAt,
                                             if records[i].payload.None? then "{}" else records[i].payload.value)
    {
      if i < n { assert records[..n][i] == records[i]; }
    }
  }

  lemma TakenIsUsable(src: Source, r: Record)
    ensures IsTaken(src, r) <==> Usable(src, r)
  {
  }

  lemma InsertNext(src: Source, applied: map<string, Applied>, records: seq<Record>, i: nat, now: Time, inserted: map<string, Applied>)
    requires i < |records| && inserted == InsertAll(src, applied, records[..i], now)
    ensures InsertAll(src, applied, records[..i + 1], now) ==
      if !Usable(src, records[i]) || records[i].eventId in inserted then inserted
      else inserted[records[i].eventId := AppliedRow(records[i], now)]
  {
    assert records[..i + 1][..i] == records[..i];
  }

  function Read(checkpoint: Option<Checkpoint>): (r: (string, Option<Time>)) {
    if checkpoint.Some? then (checkpoint.value.cursor, checkpoint.value.watermark) else ("", None)
  }

  // ---------- many runs ----------

  /** An open run: whether it found and locked the checkpoint, what it read, and the answer. */
  datatype Run = Run(locked: bool, cursor: string, last: Option<Time>, answer: Option<Batch>)

  /** The tables and the open runs; and, for the record, how far any committed run has read and
      the watermarks committed. */
  datatype State = State(checkpoint: Option<Checkpoint>, applied: map<string, Applied>, runs: map<nat, Run>,
                         furthest: nat, highs: set<Time>)

  function FirstState(): State {
    State(None, map[], map[], 0, {})
  }

  datatype Step =
    | Start(run: nat)
    | Fetch(run: nat, answer: Batch)
    | Commit(run: nat, now: Time)
    | Crash(run: nat)

  predicate CheckpointLocked(s: State) {
    exists r :: r in s.runs && s.runs[r].locked
  }

  ghost predicate IsStep(s: State, src: Source, step: Step, s': State) {
    match step
    case Start(r) =>
      r !in s.runs && (s.checkpoint.Some? ==> !CheckpointLocked(s)) &&
      var (cursor, last) := Read(s.checkpoint);
      s' == s.(runs := s.runs[r := Run(s.checkpoint.Some?, cursor, last, None)])
    case Fetch(r, answer) =>
      r in s.runs && s.runs[r].answer.None? && IsAnswer(src, s.runs[r].cursor, answer) &&
      s' == s.(runs := s.runs[r := s.runs[r].(answer := Some(answer))])
    case Commit(r, now) =>
      r in s.runs && s.runs[r].answer.Some? && (CheckpointLocked(s) ==> s.runs[r].locked) &&
      s' == Committed(s, src, r, now)
    case Crash(r) =>
      r in s.runs && s' == s.(runs := s.runs - {r})
  }

  ghost function Committed(s: State, src: Source, r: nat, now: Time): State
    requires r in s.runs && s.runs[r].answer.Some?
  {
    var run := s.runs[r];
    var batch := run.answer.value;
    var end := src.position(NextCursor(run.cursor, batch));
    State(Some(Upsert(s.checkpoint, NextCursor(run.cursor, batch), NullableTime(Watermark(run.last, batch.high)))),
          InsertAll(src, s.applied, batch.records, now),
          s.runs - {r},
          if end < s.furthest then s.furthest else end,
          s.highs + (if batch.high == ZERO_TIME then {} else {batch.high}))
  }

  ghost predicate IsHistory(states: seq<State>, src: Source, steps: seq<Step>) {
    |states| == |steps| + 1 && states[0] == FirstState() &&
    forall k :: 0 <= k < |steps| ==> IsStep(states[k], src, steps[k], states[k + 1])
  }

  /** What the task body does when nobody disturbs it is one run of the history: start, fetch and
      commit. */
  lemma LoneRun(s: State, src: Source, r: nat, answer: Batch, now: Time) returns (s1: State, s2: State, s3: State)
    requires s.runs.Keys == {} && IsAnswer(src, Read(s.checkpoint).0, answer)
    ensures IsStep(s, src, Start(r), s1) && IsStep(s1, src, Fetch(r, answer), s2) && IsStep(s2, src, Commit(r, now), s3)
    ensures
      var (cursor, last) := Read(s.checkpoint);
      s3.runs.Keys == {} && s3.applied == InsertAll(src, s.applied, answer.records, now) &&
      s3.checkpoint == Some(Upsert(s.checkpoint, NextCursor(cursor, answer), NullableTime(Watermark(last, answer.high))))
  {
    hide InsertAll, IsAnswer;
    var (cursor, last) := Read(s.checkpoint);
    s1 := s.(runs := s.runs[r := Run(s.checkpoint.Some?, cursor, last, None)]);
    s2 := s1.(runs := s1.runs[r := s1.runs[r].(answer := Some(answer))]);
    s3 := Committed(s2, src, r, now);
  }

  // ---------- what is applied ----------

  /** Record `i` is the first usable one with the event id `id`. */
  ghost predicate IsFirstEvent(src: Source, id: string, i: nat) {
    i < |src.records| && Usable(src, src.records[i]) && src.records[i].eventId == id &&
    forall j :: 0 <= j < i && src.records[j].eventId == id ==> !Usable(src, src.records[j])
  }

  /** The row holds what the record says; a record without a time may have been given any. */
  predicate Matches(row: Applied, r: Record) {
    row.externalId == r.externalId && row.payload == (if r.payload.None? then "{}" else r.payload.value) &&
    (r.updatedAt != ZERO_TIME ==> row.updatedAt == r.updatedAt)
  }

  ghost predicate AppliedFrom(src: Source, n: nat, id: string, row: Applied) {
    exists i: nat :: i < n && IsFirstEvent(src, id, i) && Matches(row, src.records[i])
  }

  /** The applied events are exactly the usable ones among the first `n` records, each with the
      contents of its first occurrence. */
  ghost predicate IsPrefix(src: Source, applied: map<string, Applied>, n: nat) {
    n <= |src.records| &&
    (forall i :: 0 <= i < n && Usable(src, src.records[i]) ==> src.records[i].eventId in applied) &&
    forall id :: id in applied ==> AppliedFrom(src, n, id, applied[id])
  }

  lemma AppliedRowMatches(r: Record, now: Time)
    ensures Matches(AppliedRow(r, now), r)
  {
  }

  lemma PrefixOneMore(src: Source, applied: map<string, Applied>, n: nat, now: Time)
    requires IsPrefix(src, applied, n) && n < |src.records|
    ensures IsPrefix(src, InsertOne(src, applied, src.records[n], now), n + 1)
  {
    hide Usable, Matches, AppliedRow;
    AppliedRowMatches(src.records[n], now);
    var r := src.records[n];
    var applied' := InsertOne(src, applied, r, now);
    forall id | id in applied' ensures AppliedFrom(src, n + 1, id, applied'[id]) {
      if id in applied {
        var i: nat :| i < n && IsFirstEvent(src, id, i) && Matches(applied[id], src.records[i]);
      } else {
        assert IsFirstEvent(src, id, n) && Matches(applied'[id], r);
      }
    }
  }

  /** Reading a record again changes nothing. */
  lemma RecordAgain(src: Source, applied: map<string, Applied>, n: nat, i: nat, now: Time)
    requires IsPrefix(src, applied, n) && i < n
    ensures InsertOne(src, applied, src.records[i], now) == applied
  {
  }

  /** Applying a slice that begins within what has been read extends it to the end of the slice,
      and changes nothing when the slice ends there. */
  lemma {:induction false} SliceExtends(src: Source, applied: map<string, Applied>, n: nat, p: nat, q: nat, now: Time)
    requires IsPrefix(src, applied, n) && p <= n && p <= q <= |src.records|
    ensures
      var applied' := InsertAll(src, applied, src.records[p..q], now);
      IsPrefix(src, applied', if q < n then n else q) && (q <= n ==> applied' == applied) &&
      forall id :: id in applied ==> id in applied' && applied'[id] == applied[id]
    decreases q
  {
    hide IsPrefix, InsertOne;
    if p < q {
      assert src.records[p..q][..q - p - 1] == src.records[p..q - 1];
      SliceExtends(src, applied, n, p, q - 1, now);
      var before := InsertAll(src, applied, src.records[p..q - 1], now);
      InsertKeeps(src, before, src.records[q - 1], now);
      if q <= n {
        RecordAgain(src, before, n, q - 1, now);
      } else {
        PrefixOneMore(src, before, q - 1, now);
      }
    }
  }

  lemma InsertKeeps(src: Source, applied: map<string, Applied>, r: Record, now: Time)
    ensures
      var applied' := InsertOne(src, applied, r, now);
      forall id :: id in applied ==> id in applied' && applied'[id] == applied[id]
  {
  }

  // ---------- what every state keeps ----------

  function Cursor(checkpoint: Option<Checkpoint>): string {
    Read(checkpoint).0
  }

  function CursorPosition(s: State, src: Source): nat {
    src.position(Cursor(s.checkpoint))
  }

  ghost predicate IsHighest(highs: set<Time>, watermark: Option<Time>) {
    if highs == {} then watermark == None else watermark.Some? && IsMax(highs, watermark.value)
  }

  /** A run that locked the checkpoint has read what is still there; one that found none has read
      nothing. */
  ghost predicate RunSound(s: State, src: Source, run: Run) {
    (run.cursor, run.last) == (if run.locked then Read(s.checkpoint) else ("", None)) &&
    (run.locked ==> s.checkpoint.Some?) &&
    (run.answer.Some? ==> IsAnswer(src, run.cursor, run.answer.value))
  }

  ghost predicate Inv(s: State, src: Source) {
    IsSource(src) && IsPrefix(src, s.applied, s.furthest) &&
    CursorPosition(s, src) <= s.furthest &&
    IsHighest(s.highs, Read(s.checkpoint).1) && ZERO_TIME !in s.highs &&
    (forall r :: r in s.runs ==> RunSound(s, src, s.runs[r])) &&
    forall q, r :: q in s.runs && r in s.runs && s.runs[q].locked && s.runs[r].locked ==> q == r
  }

  lemma StepInv(s: State, src: Source, step: Step, s': State)
    requires Inv(s, src) && IsStep(s, src, step, s')
    ensures Inv(s', src)
  {
    hide IsPrefix, InsertAll, IsMax, IsAnswer;
    if step.Commit? {
      CommitInv(s, src, step.run, step.now, s');
    }
  }

  lemma CommitInv(s: State, src: Source, r: nat, now: Time, s': State)
    requires Inv(s, src) && IsStep(s, src, Commit(r, now), s')
    ensures Inv(s', src)
  {
    hide IsPrefix, InsertAll, IsHighest;
    var run := s.runs[r];
    var batch := run.answer.value;
    assert RunSound(s, src, run);
    var p, q := src.position(run.cursor), src.position(NextCursor(run.cursor, batch));
    SliceExtends(src, s.applied, s.furthest, p, q, now);
    HighestAfter(s.highs, Read(s.checkpoint).1, run.last, batch.high);
    forall x | x in s'.runs ensures RunSound(s', src, s'.runs[x]) {
      assert RunSound(s, src, s.runs[x]) && !s.runs[x].locked;
    }
  }

  /** Whatever a run believed the last watermark to be, as long as it was none or the stored one,
      the stored one becomes the highest committed. */
  lemma HighestAfter(highs: set<Time>, stored: Option<Time>, last: Option<Time>, high: Time)
    requires IsHighest(highs, stored) && ZERO_TIME !in highs && (last == stored || last == None)
    ensures IsHighest(highs + (if high == ZERO_TIME then {} else {high}), Greatest(stored, NullableTime(Watermark(last, high))))
  {
  }

  lemma {:induction false} HistoryInv(states: seq<State>, src: Source, steps: seq<Step>, k: nat)
    requires IsSource(src) && IsHistory(states, src, steps) && k < |states|
    ensures Inv(states[k], src)
  {
    hide Inv, IsStep;
    if k == 0 {
      FirstInv(src);
    } else {
      HistoryInv(states, src, steps, k - 1);
      StepInv(states[k - 1], src, steps[k - 1], states[k]);
    }
  }

  lemma FirstInv(src: Source)
    requires IsSource(src)
    ensures Inv(FirstState(), src)
  {
  }

  // ---------- the guarantees ----------

  /** With crashes and racing first runs, the applied events are always exactly the usable ones up
      to the furthest position a committed run has read, each with its first contents; the stored
      cursor never points past that position, and the stored watermark is the highest ever
      committed. */
  lemma NothingIsSkipped(states: seq<State>, src: Source, steps: seq<Step>, k: nat)
    requires IsSource(src) && IsHistory(states, src, steps) && k < |states|
    ensures IsPrefix(src, states[k].applied, states[k].furthest)
    ensures forall i :: 0 <= i < CursorPosition(states[k], src) && Usable(src, src.records[i]) ==>
      src.records[i].eventId in states[k].applied
    ensures IsHighest(states[k].highs, Read(states[k].checkpoint).1)
  {
    HistoryInv(states, src, steps, k);
  }

  // ---------- when the cursor is exact ----------

  /** How far the slice of the committed run goes. */
  ghost function EndOf(s: State, src: Source, step: Step): nat
    requires step.Commit? && step.run in s.runs && s.runs[step.run].answer.Some?
  {
    var run := s.runs[step.run];
    src.position(NextCursor(run.cursor, run.answer.value))
  }

  /** Step `i` commits a slice that goes no further than `n`. */
  ghost predicate CommitsWithin(s: State, src: Source, step: Step, n: nat) {
    step.Commit? && step.run in s.runs && s.runs[step.run].answer.Some? ==> EndOf(s, src, step) <= n
  }

  ghost predicate AllWithin(states: seq<State>, src: Source, steps: seq<Step>, k: nat, n: nat)
    requires k <= |steps| && k <= |states|
  {
    forall i :: 0 <= i < k ==> CommitsWithin(states[i], src, steps[i], n)
  }

  /** A commit leaves the cursor at the furthest position if and only if its slice ends there or
      beyond. */
  lemma CommitMovesTo(s: State, src: Source, step: Step, s': State)
    requires IsStep(s, src, step, s') && step.Commit?
    ensures CursorPosition(s', src) == EndOf(s, src, step)
    ensures CursorPosition(s', src) == s'.furthest <==> EndOf(s, src, step) >= s.furthest
  {
    hide IsAnswer, InsertAll, TrimSpace;
  }

  lemma StepGoesTo(s: State, src: Source, step: Step, s': State)
    requires IsStep(s, src, step, s')
    ensures s'.furthest >= s.furthest && CommitsWithin(s, src, step, s'.furthest)
    ensures forall n: nat :: s'.furthest <= n <==> s.furthest <= n && CommitsWithin(s, src, step, n)
  {
    hide IsAnswer, InsertAll, NextCursor;
  }

  /** The furthest position is the greatest at which a committed slice ended. */
  lemma {:induction false} FurthestMeans(states: seq<State>, src: Source, steps: seq<Step>, k: nat, n: nat)
    requires IsHistory(states, src, steps) && k < |states|
    ensures states[k].furthest <= n <==> AllWithin(states, src, steps, k, n)
  {
    hide IsStep, CommitsWithin;
    if k > 0 {
      FurthestMeans(states, src, steps, k - 1, n);
      StepGoesTo(states[k - 1], src, steps[k - 1], states[k]);
    }
  }

  /** Among the records from `p` on to `q` every usable one repeats an event from before `p`. */
  ghost predicate NothingNew(src: Source, p: nat, q: nat) {
    forall i :: p <= i < q && i < |src.records| && Usable(src, src.records[i]) ==> ComesBefore(src, p, src.records[i].eventId)
  }

  ghost predicate ComesBefore(src: Source, p: nat, id: string) {
    exists j :: 0 <= j < p && j < |src.records| && Usable(src, src.records[j]) && src.records[j].eventId == id
  }

  /** What is exact up to `n` is exact up to an earlier `p` if and only if nothing new lies between. */
  lemma PrefixAlsoOf(src: Source, applied: map<string, Applied>, p: nat, n: nat)
    requires IsPrefix(src, applied, n) && p <= n
    ensures IsPrefix(src, applied, p) <==> NothingNew(src, p, n)
  {
    hide Usable, Matches;
    if IsPrefix(src, applied, p) {
      forall i | p <= i < n && Usable(src, src.records[i]) ensures ComesBefore(src, p, src.records[i].eventId) {
        var id := src.records[i].eventId;
        assert AppliedFrom(src, p, id, applied[id]);
      }
    }
    if NothingNew(src, p, n) {
      forall id | id in applied ensures AppliedFrom(src, p, id, applied[id]) {
        StillFrom(src, p, n, id, applied[id]);
      }
    }
  }

  lemma StillFrom(src: Source, p: nat, n: nat, id: string, row: Applied)
    requires AppliedFrom(src, n, id, row) && NothingNew(src, p, n) && p <= n <= |src.records|
    ensures AppliedFrom(src, p, id, row)
  {
    hide Usable, Matches;
    var i: nat :| i < n && IsFirstEvent(src, id, i) && Matches(row, src.records[i]);
    if p <= i { assert false; }
  }

  /** The cursor is where the last committed slice ended. */
  lemma {:induction false} CursorIsLastEnd(states: seq<State>, src: Source, steps: seq<Step>, last: nat, k: nat)
    requires IsHistory(states, src, steps) && last < k < |states|
    requires steps[last].Commit? && forall i :: last < i < k ==> !steps[i].Commit?
    ensures IsStep(states[last], src, steps[last], states[last + 1])
    ensures CursorPosition(states[k], src) == EndOf(states[last], src, steps[last])
    decreases k
  {
    hide InsertAll, IsAnswer, TrimSpace;
    if last + 1 < k {
      CursorIsLastEnd(states, src, steps, last, k - 1);
      assert IsStep(states[k - 1], src, steps[k - 1], states[k]);
    } else {
      CommitMovesTo(states[last], src, steps[last], states[k]);
    }
  }

  /** In every history the stored cursor stands where the slice of the last commit ended. That is the
      furthest position ever committed if and only if no earlier slice went beyond it; and the applied
      events are exactly the usable ones before the cursor if and only if those slices brought nothing
      new beyond it. */
  lemma ExactUpToTheCursor(states: seq<State>, src: Source, steps: seq<Step>, last: nat, k: nat)
    requires IsSource(src) && IsHistory(states, src, steps) && last < k < |states|
    requires steps[last].Commit? && forall i :: last < i < k ==> !steps[i].Commit?
    ensures IsStep(states[last], src, steps[last], states[last + 1])
    ensures
      var p := EndOf(states[last], src, steps[last]);
      CursorPosition(states[k], src) == p &&
      (states[k].furthest == p <==> AllWithin(states, src, steps, k, p)) &&
      (IsPrefix(src, states[k].applied, p) <==> NothingNew(src, p, states[k].furthest))
  {
    hide IsStep, IsPrefix, NothingNew, AllWithin;
    HistoryInv(states, src, steps, k);
    CursorIsLastEnd(states, src, steps, last, k);
    FurthestMeans(states, src, steps, k, CursorPosition(states[k], src));
    PrefixAlsoOf(src, states[k].applied, CursorPosition(states[k], src), states[k].furthest);
  }

  /** A run that commits over a checkpoint it has not seen. */
  ghost predicate OverwritesUnseen(s: State, step: Step) {
    step.Commit? && step.run in s.runs && !s.runs[step.run].locked && s.checkpoint.Some?
  }

  lemma StaysFurthest(s: State, src: Source, step: Step, s': State)
    requires Inv(s, src) && IsStep(s, src, step, s') && CursorPosition(s, src) == s.furthest && !OverwritesUnseen(s, step)
    ensures CursorPosition(s', src) == s'.furthest
  {
    hide IsPrefix, InsertAll, IsHighest, TrimSpace;
    if step.Commit? { assert RunSound(s, src, s.runs[step.run]); }
  }

  /** In particular the cursor is exact as long as no run commits over a checkpoint it has not seen. */
  lemma {:induction false} SerialRunsAreExact(states: seq<State>, src: Source, steps: seq<Step>, k: nat)
    requires IsSource(src) && IsHistory(states, src, steps) && k < |states|
    requires forall i :: 0 <= i < k ==> !OverwritesUnseen(states[i], steps[i])
    ensures CursorPosition(states[k], src) == states[k].furthest && IsPrefix(src, states[k].applied, CursorPosition(states[k], src))
  {
    hide IsStep, IsPrefix, OverwritesUnseen;
    HistoryInv(states, src, steps, k);
    if k > 0 {
      SerialRunsAreExact(states, src, steps, k - 1);
      HistoryInv(states, src, steps, k - 1);
      StaysFurthest(states[k - 1], src, steps[k - 1], states[k]);
    }
  }

  /** An applied event is never altered or lost, and the watermark never falls. */
  ghost predicate Advances(s: State, s': State) {
    (forall id :: id in s.applied ==> id in s'.applied && s'.applied[id] == s.applied[id]) &&
    s.furthest <= s'.furthest && s.highs <= s'.highs &&
    (Read(s.checkpoint).1.Some? ==> Read(s'.checkpoint).1.Some? && Read(s.checkpoint).1.value <= Read(s'.checkpoint).1.value)
  }

  lemma StepAdvances(s: State, src: Source, step: Step, s': State)
    requires Inv(s, src) && IsStep(s, src, step, s')
    ensures Advances(s, s')
  {
    hide IsPrefix, InsertAll, IsMax, TrimSpace;
    if step.Commit? {
      var run := s.runs[step.run];
      assert RunSound(s, src, run);
      SliceExtends(src, s.applied, s.furthest, src.position(run.cursor), src.position(NextCursor(run.cursor, run.answer.value)), step.now);
    }
  }

  lemma {:induction false} HistoryAdvances(states: seq<State>, src: Source, steps: seq<Step>, i: nat, j: nat)
    requires IsSource(src) && IsHistory(states, src, steps) && i <= j < |states|
    ensures Advances(states[i], states[j])
    decreases j
  {
    hide Inv, IsStep;
    if i < j {
      HistoryAdvances(states, src, steps, i, j - 1);
      HistoryInv(states, src, steps, j - 1);
      StepAdvances(states[j - 1], src, steps[j - 1], states[j]);
    }
  }

  /** Two first runs that start together may leave the cursor behind what they have applied. The
      next runs read those records again, to no effect. */
  lemma CursorMayFallBack(now: Time) returns (src: Source, states: seq<State>, steps: seq<Step>)
    ensures IsSource(src) && IsHistory(states, src, steps) && |steps| >= 1
    ensures CursorPosition(states[|steps|], src) < CursorPosition(states[|steps| - 1], src) == states[|steps|].furthest
    ensures !IsPrefix(src, states[|steps|].applied, CursorPosition(states[|steps|], src))
  {
    hide TrimSpace, InsertAll, IsPrefix;
    TrimmedAlready();
    src := Source([Record("e", "x", 1, None)], c => if c == "1" then 1 else 0, _ => true);
    var all, none := Batch(src.records, "1", 0), Batch([], "0", 0);
    assert src.records[0..1] == src.records && src.records[0..0] == [];
    var waiting := Run(false, "", None, None);
    var first, second := waiting.(answer := Some(all)), waiting.(answer := Some(none));
    var s0 := FirstState();
    var s1 := s0.(runs := map[0 := waiting]);
    var s2 := s0.(runs := map[0 := waiting, 1 := waiting]);
    var s3 := s0.(runs := map[0 := first, 1 := waiting]);
    var s4 := s0.(runs := map[0 := first, 1 := second]);
    var s5 := Committed(s4, src, 0, now);
    var s6 := Committed(s5, src, 1, now);
    states := [s0, s1, s2, s3, s4, s5, s6];
    steps := [Start(0), Start(1), Fetch(0, all), Fetch(1, none), Commit(0, now), Commit(1, now)];
    FirstTwo(src, s0, s1, s2, waiting);
    assert s2.runs[0 := first] == s3.runs && s3.runs[1 := second] == s4.runs;
    assert IsStep(s2, src, steps[2], s3) && IsStep(s3, src, steps[3], s4);
    assert IsStep(s4, src, steps[4], s5) && IsStep(s5, src, steps[5], s6);
    HistoryInv(states, src, steps, |steps|);
    NotExactAtTheStart(src, s6);
  }

  lemma NotExactAtTheStart(src: Source, s: State)
    requires Inv(s, src) && s.furthest == 1 && src.records != [] && Usable(src, src.records[0])
    ensures !IsPrefix(src, s.applied, 0)
  {
    hide Usable, IsPrefix;
    PrefixAlsoOf(src, s.applied, 0, 1);
    assert !ComesBefore(src, 0, src.records[0].eventId);
  }

  lemma TrimmedAlready()
    ensures TrimSpace("0") == "0" && TrimSpace("1") == "1" && TrimSpace("e") == "e" && TrimSpace("x") == "x"
  {
  }

  lemma FirstTwo(src: Source, s0: State, s1: State, s2: State, waiting: Run)
    requires s0 == FirstState() && waiting == Run(false, "", None, None)
    requires s1 == s0.(runs := map[0 := waiting]) && s2 == s0.(runs := map[0 := waiting, 1 := waiting])
    ensures IsStep(s0, src, Start(0), s1) && IsStep(s1, src, Start(1), s2)
  {
    assert s0.runs[0 := waiting] == s1.runs && s1.runs[1 := waiting] == s2.runs;
  }
}
