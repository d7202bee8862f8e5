/**
 * The two chat tables and the statements that change them. `Db` is their value; the class performs
 * the same statements on its fields. Selecting the due rows is SQL, given here by what it returns.
 */
module ChatDao {
  import opened Basics
  import MonotonicUlid

  datatype DeliveryState =
    LocalPending | DirectSending | CloudQueued | PcReceived | Processing | ResponseStreaming | Completed
    | RetryWait | FailedFinal | WaitingForPc

  datatype RoutingClass = Message | Receipt | Control | Stream | Approval

  datatype EventRow = EventRow(
    eventId: string, threadId: string, routing: RoutingClass, createdAtMs: int, sealed: string,
    state: DeliveryState, fromAssistant: bool)

  datatype OutboxRow = OutboxRow(
    eventId: string, threadId: string, queuedAtMs: int, attemptCount: int, nextAttemptAtMs: int, lastError: Option<string>)

  datatype Db = Db(events: map<string, EventRow>, outbox: map<string, OutboxRow>)

  function InsertEvent(db: Db, row: EventRow): Db {
    if row.eventId in db.events then db else db.(events := db.events[row.eventId := row])
  }

  function SetState(db: Db, id: string, state: DeliveryState): Db {
    if id in db.events then db.(events := db.events[id := db.events[id].(state := state)]) else db
  }

  function Enqueue(db: Db, row: OutboxRow): Db {
    if row.eventId in db.outbox then db else db.(outbox := db.outbox[row.eventId := row])
  }

  function Dequeue(db: Db, id: string): Db { db.(outbox := db.outbox - {id}) }

  function Reschedule(db: Db, id: string, attempts: int, nextAt: int, error: Option<string>): Db {
    if id in db.outbox then
      db.(outbox := db.outbox[id := db.outbox[id].(attemptCount := attempts, nextAttemptAtMs := nextAt, lastError := error)])
    else db
  }

  predicate Expired(row: EventRow, beforeMs: int) { row.routing.Stream? && row.createdAtMs < beforeMs }

  function PurgeChunks(db: Db, beforeMs: int): Db {
    db.(events := map id | id in db.events && !Expired(db.events[id], beforeMs) :: db.events[id])
  }

  function EnqueueOutgoing(db: Db, event: EventRow, row: OutboxRow): Db { Enqueue(InsertEvent(db, event), row) }

  // ---------------------------------------------------------------- retrying failed messages

  predicate CanRetry(db: Db, id: string) {
    id in db.events && !db.events[id].fromAssistant && db.events[id].state.FailedFinal?
  }

  function RetryOne(db: Db, event: EventRow, nowMs: int): Db {
    var id := event.eventId;
    var queued := Enqueue(db, OutboxRow(id, event.threadId, nowMs, 0, nowMs, None));
    SetState(Reschedule(queued, id, 0, nowMs, None), id, LocalPending)
  }

  function RetryAll(db: Db, events: seq<EventRow>, nowMs: int): Db {
    if events == [] then db else RetryOne(RetryAll(db, events[..|events| - 1], nowMs), events[|events| - 1], nowMs)
  }

  function Rows(db: Db, ids: seq<string>): seq<EventRow>
    requires forall i :: 0 <= i < |ids| ==> ids[i] in db.events
  {
    seq(|ids|, i requires 0 <= i < |ids| => db.events[ids[i]])
  }

  /** All or nothing: a group is retried only if every member is an outgoing final failure. */
  function RetryBatch(db: Db, ids: seq<string>, nowMs: int): (Db, bool) {
    if ids == [] || exists i :: 0 <= i < |ids| && !CanRetry(db, ids[i]) then (db, false)
    else (RetryAll(db, Rows(db, ids), nowMs), true)
  }

  // ---------------------------------------------------------------- the due query

  predicate QueuedBefore(a: OutboxRow, b: OutboxRow) {
    a.queuedAtMs < b.queuedAtMs || (a.queuedAtMs == b.queuedAtMs && MonotonicUlid.LexLess(a.eventId, b.eventId))
  }

  ghost predicate IsDue(db: Db, row: OutboxRow, nowMs: int) {
    row.eventId in db.outbox && db.outbox[row.eventId] == row && row.nextAttemptAtMs <= nowMs
  }

  /** `rows` is what the due query returns: due rows in queue order, all of them or the first `limit`. */
  ghost predicate DueRows(db: Db, rows: seq<OutboxRow>, nowMs: int, limit: nat) {
    && |rows| <= limit
    && (forall i :: 0 <= i < |rows| ==> IsDue(db, rows[i], nowMs))
    && (forall i, j :: 0 <= i < j < |rows| ==> QueuedBefore(rows[i], rows[j]))
    && (forall row :: IsDue(db, row, nowMs) && row !in rows ==>
          |rows| == limit && forall i :: 0 <= i < |rows| ==> QueuedBefore(rows[i], row))
  }

  lemma DueRowsAreDistinct(db: Db, rows: seq<OutboxRow>, nowMs: int, limit: nat)
    requires DueRows(db, rows, nowMs, limit)
    ensures forall i, j :: 0 <= i < j < |rows| ==> rows[i].eventId != rows[j].eventId
  {
    forall i, j | 0 <= i < j < |rows| ensures rows[i].eventId != rows[j].eventId {
      assert QueuedBefore(rows[i], rows[j]) && IsDue(db, rows[i], nowMs) && IsDue(db, rows[j], nowMs);
      if rows[i] == rows[j] {
        MonotonicUlid.LexLessAsymmetric(rows[i].eventId, rows[j].eventId);
      }
    }
  }

  class Tables {
    var events: map<string, EventRow>
    var outbox: map<string, OutboxRow>

    ghost function Value(): Db
      reads this
    {
      Db(events, outbox)
    }

    constructor ()
      ensures Value() == Db(map[], map[])
    {
      events, outbox := map[], map[];
    }

    method FindEvent(id: string) returns (row: Option<EventRow>)
      ensures row == if id in events then Some(events[id]) else None
    {
      row := if id in events then Some(events[id]) else None;
    }

    method Insert(row: EventRow) returns (inserted: bool)
      modifies this
      ensures Value() == InsertEvent(old(Value()), row)
      ensures inserted <==> row.eventId !in old(events)
    {
      inserted := row.eventId !in events;
      if inserted { events := events[row.eventId := row]; }
    }

    method UpdateDeliveryState(id: string, state: DeliveryState)
      modifies this
      ensures Value() == SetState(old(Value()), id, state)
    {
      if id in events { events := events[id := events[id].(state := state)]; }
    }

    method PurgeExpiredChunks(beforeMs: int)
      modifies this
      ensures Value() == PurgeChunks(old(Value()), beforeMs)
    {
      events := map id | id in events && !Expired(events[id], beforeMs) :: events[id];
    }

    method EnqueueRow(row: OutboxRow)
      modifies this
      ensures Value() == Enqueue(old(Value()), row)
    {
      if row.eventId !in outbox { outbox := outbox[row.eventId := row]; }
    }

    method DequeueRow(id: string)
      modifies this
      ensures Value() == Dequeue(old(Value()), id)
    {
      outbox := outbox - {id};
    }

    method RescheduleOutbox(id: string, attempts: int, nextAt: int, error: Option<string>)
      modifies this
      ensures Value() == Reschedule(old(Value()), id, attempts, nextAt, error)
    {
      if id in outbox {
        outbox := outbox[id := outbox[id].(attemptCount := attempts, nextAttemptAtMs := nextAt, lastError := error)];
      }
    }

    /** One transaction: the event and its outbox row, or neither. */
    method EnqueueOutgoingRow(event: EventRow, row: OutboxRow)
      modifies this
      ensures Value() == EnqueueOutgoing(old(Value()), event, row)
    {
      var inserted := Insert(event);
      EnqueueRow(row);
    }

    method RetryFailedOutgoingBatch(ids: seq<string>, nowMs: int) returns (ok: bool)
      modifies this
      ensures (Value(), ok) == RetryBatch(old(Value()), ids, nowMs)
    {
      if ids == [] { return false; }
      ghost var was := Value();
      var rows: seq<EventRow> := [];
      for i := 0 to |ids|
        invariant |rows| == i
        invariant forall k :: 0 <= k < i ==> ids[k] in events && rows[k] == events[ids[k]]
      {
        if ids[i] !in events {
          assert !CanRetry(was, ids[i]);
          return false;
        }
        rows := rows + [events[ids[i]]];
      }
      for i := 0 to |rows|
        invariant forall k :: 0 <= k < i ==> CanRetry(was, ids[k])
      {
        if rows[i].fromAssistant || !rows[i].state.FailedFinal? {
          assert !CanRetry(was, ids[i]);
          return false;
        }
      }
      assert rows == Rows(was, ids);
      for i := 0 to |rows|
        invariant Value() == RetryAll(was, rows[..i], nowMs)
      {
        assert rows[..i + 1][..i] == rows[..i];
        var event := rows[i];
        EnqueueRow(OutboxRow(event.eventId, event.threadId, nowMs, 0, nowMs, None));
        RescheduleOutbox(event.eventId, 0, nowMs, None);
        UpdateDeliveryState(event.eventId, LocalPending);
      }
      assert rows[..|rows|] == rows;
      return true;
    }

    /** Acknowledged by the PC: the state first, then the outbox row goes. */
    method MarkDelivered(id: string, state: DeliveryState)
      modifies this
      ensures Value() == Acknowledge(old(Value()), id, state)
    {
      UpdateDeliveryState(id, state);
      if state.Completed? || state.PcReceived? { DequeueRow(id); }
    }
  }

  function Acknowledge(db: Db, id: string, state: DeliveryState): Db {
    var marked := SetState(db, id, state);
    if state.Completed? || state.PcReceived? then Dequeue(marked, id) else marked
  }

  // ---------------------------------------------------------------- what the statements do to every row
  /** Both tables say the same of this identifier. */
  ghost predicate Untouched(db: Db, after: Db, id: string) {
    && (id in after.events <==> id in db.events) && (id in db.events ==> after.events[id] == db.events[id])
    && (id in after.outbox <==> id in db.outbox) && (id in db.outbox ==> after.outbox[id] == db.outbox[id])
  }

  /** A message handed over twice stays as it was the first time; nothing else is touched. */
  lemma EnqueueOutcome(db: Db, event: EventRow, row: OutboxRow, id: string)
    requires event.eventId == row.eventId
    ensures var after := EnqueueOutgoing(db, event, row);
            if id != row.eventId then Untouched(db, after, id)
            else
              && id in after.events && after.events[id] == (if id in db.events then db.events[id] else event)
              && id in after.outbox && after.outbox[id] == if id in db.outbox then db.outbox[id] else row
  {
  }

  /** An acknowledgement notes the state, and takes the row out only when the PC has the message. */
  lemma AcknowledgeOutcome(db: Db, acked: string, state: DeliveryState, id: string)
    ensures var after := Acknowledge(db, acked, state);
            if id != acked then Untouched(db, after, id)
            else
              && (id in after.events <==> id in db.events)
              && (id in db.events ==> after.events[id] == db.events[id].(state := state))
              && (id in after.outbox <==> id in db.outbox && state !in {PcReceived, Completed})
              && (id in after.outbox ==> after.outbox[id] == db.outbox[id])
  {
  }

  /** A purge takes stream events older than the cut out of the history, and nothing else anywhere. */
  lemma PurgeOutcome(db: Db, beforeMs: int, id: string)
    ensures var after := PurgeChunks(db, beforeMs);
            && after.outbox == db.outbox
            && (id in after.events <==>
                  id in db.events && !(db.events[id].routing == Stream && db.events[id].createdAtMs < beforeMs))
            && (id in after.events ==> after.events[id] == db.events[id])
  {
  }

  lemma {:induction false} RetryAllOutcome(db: Db, ids: seq<string>, nowMs: int, id: string)
    requires forall i :: 0 <= i < |ids| ==> ids[i] in db.events && db.events[ids[i]].eventId == ids[i]
    ensures var after := RetryAll(db, Rows(db, ids), nowMs);
            && after.events.Keys == db.events.Keys
            && if id !in ids then Untouched(db, after, id) else Requeued(db, after, nowMs, id)
  {
    if ids != [] {
      var rows, shorter, last := Rows(db, ids), ids[..|ids| - 1], ids[|ids| - 1];
      assert rows[..|rows| - 1] == Rows(db, shorter);
      assert ids == shorter + [last];
      RetryAllOutcome(db, shorter, nowMs, id);
      RetryOneOutcome(RetryAll(db, Rows(db, shorter), nowMs), db.events[last], nowMs, id);
      if last in shorter { RetryAllOutcome(db, shorter, nowMs, last); }
    }
  }

  lemma RetryOneOutcome(db: Db, event: EventRow, nowMs: int, id: string)
    ensures var after, retried := RetryOne(db, event, nowMs), event.eventId;
            if id != retried then Untouched(db, after, id)
            else
              && (id in after.events <==> id in db.events)
              && (id in db.events ==> after.events[id] == db.events[id].(state := LocalPending))
              && id in after.outbox
              && after.outbox[id] == FromTheStart(if id in db.outbox then db.outbox[id]
                                                  else OutboxRow(id, event.threadId, nowMs, 0, nowMs, None), nowMs)
  {
  }

  function FromTheStart(row: OutboxRow, nowMs: int): OutboxRow {
    row.(attemptCount := 0, nextAttemptAtMs := nowMs, lastError := None)
  }

  /** Pending again, and due at once with no attempt and no error; a row still there keeps its place. */
  ghost predicate Requeued(db: Db, after: Db, nowMs: int, id: string) {
    && id in db.events && id in after.events && after.events[id] == db.events[id].(state := LocalPending)
    && id in after.outbox && after.outbox[id].attemptCount == 0 && after.outbox[id].nextAttemptAtMs == nowMs
    && after.outbox[id].lastError == None
    && (if id in db.outbox then after.outbox[id] == FromTheStart(db.outbox[id], nowMs)
        else after.outbox[id] == OutboxRow(id, db.events[id].threadId, nowMs, 0, nowMs, None))
  }

  /**
   * A retry succeeds exactly for a group, not empty, of outgoing messages that have failed for good;
   * then each of them is pending again with a fresh outbox row and no other row of either table moves.
   * Otherwise nothing changes at all.
   */
  lemma RetryOutcome(db: Db, ids: seq<string>, nowMs: int, id: string)
    requires forall k :: k in db.events ==> db.events[k].eventId == k
    ensures var (after, ok) := RetryBatch(db, ids, nowMs);
            && (ok <==> ids != [] && forall i :: 0 <= i < |ids| ==>
                  ids[i] in db.events && !db.events[ids[i]].fromAssistant && db.events[ids[i]].state == FailedFinal)
            && (if !ok then after == db else if id in ids then Requeued(db, after, nowMs, id) else Untouched(db, after, id))
  {
    if RetryBatch(db, ids, nowMs).1 {
      forall i | 0 <= i < |ids| ensures ids[i] in db.events && db.events[ids[i]].eventId == ids[i] {
        assert CanRetry(db, ids[i]);
      }
      RetryAllOutcome(db, ids, nowMs, id);
    } else if ids != [] {
      var i :| 0 <= i < |ids| && !CanRetry(db, ids[i]);
      assert !(ids[i] in db.events && !db.events[ids[i]].fromAssistant && db.events[ids[i]].state == FailedFinal);
    }
  }
}
