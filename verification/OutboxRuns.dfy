/**
 * Whole runs of the outbox in which each operation, and each drain pass, is atomic: where outgoing
 * messages are at every moment, and how long the drain keeps trying before it gives one up.
 */
module OutboxRuns {
  import opened Basics
  import opened ChatDao
  import opened SyncLoop

  datatype Op =
    | EnqueueOp(event: EventRow, row: OutboxRow)
    | PassOp(pass: Pass)
    | AckOp(id: string, state: DeliveryState)
    | RetryOp(ids: seq<string>, nowMs: int)
    | PurgeOp(beforeMs: int)
    | ReceiveOp(incoming: EventRow)

  /** The tables, and when each message was handled by a pass since it was last queued. */
  datatype Run = Run(db: Db, handledAt: map<string, seq<int>>)

  const START := Run(Db(map[], map[]), map[])

  predicate Pending(state: DeliveryState) {
    state.LocalPending? || state.DirectSending? || state.CloudQueued? || state.WaitingForPc?
  }

  ghost predicate Handled(db: Db, p: Pass, i: nat)
    requires WellFormed(p) && i < |p.due|
  {
    if p.online then Present(db, p, i) else RelayedRow(db, p, i) || WaitingRow(db, p, i)
  }

  ghost predicate HandledId(db: Db, p: Pass, id: string)
    requires WellFormed(p)
  {
    exists i :: 0 <= i < |p.due| && p.due[i].eventId == id && Handled(db, p, i)
  }

  ghost function LogPass(r: Run, p: Pass): map<string, seq<int>>
    requires WellFormed(p)
  {
    map id | id in r.handledAt ::
      if HandledId(r.db, p, id) then r.handledAt[id] + [p.queriedAt] else r.handledAt[id]
  }

  function LogRetry(log: map<string, seq<int>>, ids: seq<string>): map<string, seq<int>> {
    if ids == [] then log else LogRetry(log, ids[..|ids| - 1])[ids[|ids| - 1] := []]
  }

  ghost predicate Allowed(r: Run, op: Op) {
    match op
    case EnqueueOp(event, row) =>
      && event.eventId == row.eventId && event.eventId !in r.db.events && event.eventId !in r.db.outbox
      && !event.fromAssistant && event.state.LocalPending? && row.attemptCount == 0
    case PassOp(p) =>
      && WellFormed(p) && DueRows(r.db, p.due, p.queriedAt, BATCH)
      && forall i :: 0 <= i < |p.due| ==> p.queriedAt <= p.relayedAt[i] && p.queriedAt <= p.waitedAt[i]
    case AckOp(_, state) => state.PcReceived? || state.Completed?
    case RetryOp(_, _) => true
    case PurgeOp(_) => true
    case ReceiveOp(row) => row.fromAssistant
  }

  ghost function Step(r: Run, op: Op): Run
    requires Allowed(r, op)
  {
    match op
    case EnqueueOp(event, row) => Run(EnqueueOutgoing(r.db, event, row), r.handledAt[row.eventId := []])
    case PassOp(p) => Run(Drain(r.db, p).0, LogPass(r, p))
    case AckOp(id, state) => r.(db := Acknowledge(r.db, id, state))
    case RetryOp(ids, nowMs) =>
      var (db, ok) := RetryBatch(r.db, ids, nowMs);
      Run(db, if ok then LogRetry(r.handledAt, ids) else r.handledAt)
    case PurgeOp(beforeMs) => r.(db := PurgeChunks(r.db, beforeMs))
    case ReceiveOp(row) => r.(db := InsertEvent(r.db, row))
  }

  ghost predicate AllAllowed(r: Run, ops: seq<Op>)
    decreases ops
  {
    ops == [] || (Allowed(r, ops[0]) && AllAllowed(Step(r, ops[0]), ops[1..]))
  }

  ghost function RunAll(r: Run, ops: seq<Op>): Run
    requires AllAllowed(r, ops)
    decreases ops
  {
    if ops == [] then r else RunAll(Step(r, ops[0]), ops[1..])
  }

  // ---------------------------------------------------------------- the invariant, one message at a time

  /** An outgoing event is waiting in the outbox exactly when its state says that it is. */
  ghost predicate InPlace(db: Db, id: string) {
    && (id in db.events ==> db.events[id].eventId == id)
    && (id in db.outbox ==> db.outbox[id].eventId == id)
    && (id in db.events && !db.events[id].fromAssistant ==>
          (id in db.outbox <==> Pending(db.events[id].state)))
  }

  ghost predicate Consistent(db: Db) { forall id :: InPlace(db, id) }

  /** The attempt count is the number of handling passes, and the next one waits for all the delays. */
  ghost predicate Paced(r: Run, id: string) {
    id in r.db.outbox ==>
      && id in r.handledAt
      && r.db.outbox[id].attemptCount == |r.handledAt[id]|
      && (r.handledAt[id] != [] ==>
            r.db.outbox[id].nextAttemptAtMs >= r.handledAt[id][0] + BackoffSum(|r.handledAt[id]|))
  }

  ghost predicate Inv(r: Run) {
    Consistent(r.db) && forall id :: Paced(r, id)
  }

  /** InPlace and Paced only look at the view of the identifier. */
  lemma SameView(r: Run, r': Run, id: string)
    requires View(r.db, id) == View(r'.db, id)
    requires id in r.handledAt ==> id in r'.handledAt && r'.handledAt[id] == r.handledAt[id]
    requires InPlace(r.db, id) && Paced(r, id)
    ensures InPlace(r'.db, id) && Paced(r', id)
  {
  }

  /** Delaying a handled row by its backoff keeps the pace. */
  lemma HandlingKeepsPace(log: seq<int>, next: int, queriedAt: int, at: int)
    requires log != [] ==> next >= log[0] + BackoffSum(|log|)
    requires next <= queriedAt <= at
    ensures at + Backoff(|log|) >= (log + [queriedAt])[0] + BackoffSum(|log| + 1)
  {
    assert BackoffSum(|log| + 1) == BackoffSum(|log|) + Backoff(|log|);
    assert log == [] ==> BackoffSum(|log|) == 0;
  }

  lemma SentKeeps(r: Run, r': Run, row: OutboxRow, state: DeliveryState, queriedAt: int, at: int)
    requires IsDue(r.db, row, queriedAt) && queriedAt <= at && row.attemptCount >= 0
    requires InPlace(r.db, row.eventId) && Paced(r, row.eventId)
    requires row.eventId in r.db.events && Pending(state)
    requires View(r'.db, row.eventId) == View(Sent(r.db, row, state, at), row.eventId)
    requires row.eventId in r'.handledAt && r'.handledAt[row.eventId] == r.handledAt[row.eventId] + [queriedAt]
    ensures InPlace(r'.db, row.eventId) && Paced(r', row.eventId)
  {
    HandlingKeepsPace(r.handledAt[row.eventId], row.nextAttemptAtMs, queriedAt, at);
  }

  lemma WaitingKeeps(r: Run, r': Run, row: OutboxRow, queriedAt: int, at: int, error: string)
    requires IsDue(r.db, row, queriedAt) && queriedAt <= at && row.attemptCount >= 0
    requires InPlace(r.db, row.eventId) && Paced(r, row.eventId)
    requires View(r'.db, row.eventId) == View(MarkWaiting(r.db, row, at, error), row.eventId)
    requires row.eventId in r'.handledAt && r'.handledAt[row.eventId] == r.handledAt[row.eventId] + [queriedAt]
    ensures InPlace(r'.db, row.eventId) && Paced(r', row.eventId)
  {
    HandlingKeepsPace(r.handledAt[row.eventId], row.nextAttemptAtMs, queriedAt, at);
  }

  /** What the log says of a due row after the pass. */
  lemma LogOfDueRow(r: Run, p: Pass, i: nat)
    requires WellFormed(p) && DistinctRows(p) && i < |p.due|
    requires p.due[i].eventId in r.handledAt
    ensures p.due[i].eventId in LogPass(r, p)
    ensures LogPass(r, p)[p.due[i].eventId]
         == if Handled(r.db, p, i) then r.handledAt[p.due[i].eventId] + [p.queriedAt] else r.handledAt[p.due[i].eventId]
  {
    if HandledId(r.db, p, p.due[i].eventId) {
      var j :| 0 <= j < |p.due| && p.due[j].eventId == p.due[i].eventId && Handled(r.db, p, j);
      assert j == i;
    }
  }

  lemma PassKeepsDueRow(r: Run, p: Pass, i: nat)
    requires Inv(r) && Allowed(r, PassOp(p)) && i < |p.due|
    ensures InPlace(Step(r, PassOp(p)).db, p.due[i].eventId) && Paced(Step(r, PassOp(p)), p.due[i].eventId)
  {
    var r', row := Step(r, PassOp(p)), p.due[i];
    var id := row.eventId;
    assert IsDue(r.db, row, p.queriedAt) && InPlace(r.db, id) && Paced(r, id);
    DueRowsAreDistinct(r.db, p.due, p.queriedAt, BATCH);
    LogOfDueRow(r, p, i);
    if p.online {
      OnlinePassView(r.db, p, i);
      if Present(r.db, p, i) {
        if p.sends[i] {
          SentKeeps(r, r', row, DirectSending, p.queriedAt, p.waitedAt[i]);
        } else {
          WaitingKeeps(r, r', row, p.queriedAt, p.waitedAt[i], p.linkError);
        }
      }
    } else {
      OfflinePassView(r.db, p, i);
      if WaitingRow(r.db, p, i) {
        WaitingKeeps(r, r', row, p.queriedAt, p.waitedAt[i], p.linkError);
      } else if RelayedRow(r.db, p, i) {
        SentKeeps(r, r', row, CloudQueued, p.queriedAt, p.relayedAt[i]);
      } else {
        SameView(r, r', id);
      }
    }
  }

  lemma PassKeepsInv(r: Run, p: Pass)
    requires Inv(r) && Allowed(r, PassOp(p))
    ensures Inv(Step(r, PassOp(p)))
  {
    var r' := Step(r, PassOp(p));
    forall id ensures InPlace(r'.db, id) && Paced(r', id) {
      if i :| 0 <= i < |p.due| && p.due[i].eventId == id {
        PassKeepsDueRow(r, p, i);
      } else {
        PassIgnoresOthers(r.db, p, id);
        assert InPlace(r.db, id) && Paced(r, id);
        SameView(r, r', id);
      }
    }
  }

  lemma RetryOneKeepsInv(r: Run, event: EventRow, nowMs: int)
    requires Inv(r) && event.eventId in r.db.events && !r.db.events[event.eventId].fromAssistant
    ensures Inv(Run(RetryOne(r.db, event, nowMs), r.handledAt[event.eventId := []]))
  {
    var r', id := Run(RetryOne(r.db, event, nowMs), r.handledAt[event.eventId := []]), event.eventId;
    forall other ensures InPlace(r'.db, other) && Paced(r', other) {
      assert InPlace(r.db, other) && Paced(r, other);
      if other != id {
        SameView(r, r', other);
      }
    }
  }

  lemma {:induction false} RetryAllKeepsInv(r: Run, rows: seq<EventRow>, ids: seq<string>, nowMs: int)
    requires Inv(r) && |rows| == |ids|
    requires forall i :: 0 <= i < |ids| ==>
      rows[i].eventId == ids[i] && ids[i] in r.db.events && !r.db.events[ids[i]].fromAssistant
    ensures Inv(Run(RetryAll(r.db, rows, nowMs), LogRetry(r.handledAt, ids)))
    ensures forall id :: id in r.db.events ==>
      && id in RetryAll(r.db, rows, nowMs).events
      && RetryAll(r.db, rows, nowMs).events[id].fromAssistant == r.db.events[id].fromAssistant
  {
    if rows != [] {
      var n := |rows| - 1;
      RetryAllKeepsInv(r, rows[..n], ids[..n], nowMs);
      RetryOneKeepsInv(Run(RetryAll(r.db, rows[..n], nowMs), LogRetry(r.handledAt, ids[..n])), rows[n], nowMs);
    }
  }

  lemma OtherStepsKeepInv(r: Run, op: Op)
    requires Inv(r) && Allowed(r, op) && !op.PassOp? && !op.RetryOp?
    ensures Inv(Step(r, op))
  {
    var r' := Step(r, op);
    forall id ensures InPlace(r'.db, id) && Paced(r', id) {
      assert InPlace(r.db, id) && Paced(r, id);
    }
  }

  lemma StepKeepsInv(r: Run, op: Op)
    requires Inv(r) && Allowed(r, op)
    ensures Inv(Step(r, op))
  {
    match op {
      case PassOp(p) => PassKeepsInv(r, p);
      case RetryOp(ids, nowMs) =>
        if RetryBatch(r.db, ids, nowMs).1 {
          forall i | 0 <= i < |ids| ensures Rows(r.db, ids)[i].eventId == ids[i] && !r.db.events[ids[i]].fromAssistant {
            assert CanRetry(r.db, ids[i]) && InPlace(r.db, ids[i]);
          }
          RetryAllKeepsInv(r, Rows(r.db, ids), ids, nowMs);
        }
      case EnqueueOp(_, _) => OtherStepsKeepInv(r, op);
      case AckOp(_, _) => OtherStepsKeepInv(r, op);
      case PurgeOp(_) => OtherStepsKeepInv(r, op);
      case ReceiveOp(_) => OtherStepsKeepInv(r, op);
    }
  }

  lemma {:induction false} RunKeepsInv(r: Run, ops: seq<Op>)
    requires Inv(r) && AllAllowed(r, ops)
    ensures Consistent(RunAll(r, ops).db) && forall id :: Paced(RunAll(r, ops), id)
    decreases ops
  {
    if ops != [] {
      StepKeepsInv(r, ops[0]);
      RunKeepsInv(Step(r, ops[0]), ops[1..]);
    }
  }

  // ---------------------------------------------------------------- main results

  /**
   * After any run of enqueues, passes, acknowledgements, retries, purges and receptions, an outgoing
   * event is in the outbox if and only if it is pending, sending, queued in the cloud or waiting.
   */
  lemma OutboxHoldsExactlyThePending(ops: seq<Op>, id: string)
    requires AllAllowed(START, ops)
    ensures var db := RunAll(START, ops).db;
            id in db.events && !db.events[id].fromAssistant ==> (id in db.outbox <==> Pending(db.events[id].state))
  {
    RunKeepsInv(START, ops);
    assert InPlace(RunAll(START, ops).db, id);
  }

  lemma {:induction false} BackoffSumGrows(a: nat, b: nat)
    requires a <= b
    ensures BackoffSum(a) <= BackoffSum(b)
  {
    if a < b {
      BackoffSumGrows(a, b - 1);
      BackoffIsMonotone(b - 1, b - 1);
    }
  }

  /**
   * The drain gives a message up at the earliest on its twelfth handling pass, and never within
   * 1,581,000 ms (26 min 21 s) of the first, whatever the links do in between.
   */
  lemma NeverGivesUpEarly(ops: seq<Op>, p: Pass, id: string)
    requires AllAllowed(START, ops) && Allowed(RunAll(START, ops), PassOp(p))
    requires var db := RunAll(START, ops).db; id in db.events && db.events[id].state != FailedFinal
    requires var db' := Drain(RunAll(START, ops).db, p).0; id in db'.events && db'.events[id].state == FailedFinal
    ensures var log := RunAll(START, ops).handledAt;
            id in log && |log[id]| >= 11 && p.queriedAt >= log[id][0] + 1_581_000
  {
    var r := RunAll(START, ops);
    RunKeepsInv(START, ops);
    DueRowsAreDistinct(r.db, p.due, p.queriedAt, BATCH);
    if i :| 0 <= i < |p.due| && p.due[i].eventId == id {
      assert IsDue(r.db, p.due[i], p.queriedAt) && InPlace(r.db, id) && Paced(r, id);
      if p.online { OnlinePassView(r.db, p, i); } else { OfflinePassView(r.db, p, i); }
      BackoffSumGrows(11, |r.handledAt[id]|);
      ElevenBackoffs();
    } else {
      PassIgnoresOthers(r.db, p, id);
    }
  }

  /** Acknowledging with a state other than these would break the correspondence, and only then. */
  lemma AckKeepsPlaceExactlyWhen(db: Db, id: string, state: DeliveryState)
    requires InPlace(db, id) && id in db.events && !db.events[id].fromAssistant && id in db.outbox
    ensures InPlace(Acknowledge(db, id, state), id) <==> state.PcReceived? || state.Completed? || Pending(state)
  {
  }
}
