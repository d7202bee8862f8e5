/**
 * The outbox at the grain of single table statements: any number of drain passes, acknowledgements,
 * sends, retries and purges interleave, each pass working from the rows it read when it began, and a
 * pass or the whole process may die between two statements.
 */
module OutboxInterleaving {
  import opened Basics
  import opened ChatDao
  import opened SyncLoop
  import OutboxRuns

  datatype Mode = Direct | ByRelay | Holding

  /** What a pass is about to do for its current row. */
  datatype At =
    | Looking                          // read the event, then try to send it
    | Gone                             // the event was missing: remove the row
    | Accepted(state: DeliveryState)   // a link took the message: write its state
    | Refused                          // write waiting_for_pc or failed_final
    | Failed                           // failed_final is written: remove the row
    | Delaying(error: Option<string>)  // write the next attempt

  datatype Cursor = Cursor(mode: Mode, i: nat, at: At, sent: nat)

  datatype Drainer = Drainer(pass: Pass, cursor: Cursor)

  /** One queueing of a message: it begins when the message is sent or retried. */
  datatype Life = Life(id: string, n: nat)

  /**
   * What has been decided about each queueing. `decided` and the acknowledgements under way remember
   * which queueing they were about; `overtaken` are queueings whose row was removed by a decision that
   * was about an earlier one.
   */
  datatype Past = Past(
    lives: map<string, nat>, decided: map<nat, nat>,
    acked: set<Life>, gaveUp: set<Life>, seenGone: set<Life>, overtaken: set<Life>)

  datatype State = State(
    db: Db, drainers: map<nat, Drainer>, acks: map<nat, Life>, handled: map<string, nat>, past: Past)

  const START := State(Db(map[], map[]), map[], map[], map[], Past(map[], map[], {}, {}, {}, {}))

  datatype Op =
    | Send(event: EventRow, row: OutboxRow)
    | Begin(k: nat, pass: Pass)
    | Move(k: nat)
    | Die(k: nat)
    | Restart
    | AckWrite(k: nat, id: string, state: DeliveryState)
    | AckRemove(k: nat)
    | Retry(ids: seq<string>, nowMs: int)
    | Purge(beforeMs: int)
    | Receive(incoming: EventRow)

  // ---------------------------------------------------------------- one statement of a pass

  function First(p: Pass): Cursor {
    Cursor(if p.online then Direct else if p.relayReady then ByRelay else Holding, 0,
            if p.online || p.relayReady then Looking else Refused, 0)
  }

  predicate Over(p: Pass, c: Cursor) { c.mode != ByRelay && c.i >= |p.due| }

  function NextRow(c: Cursor): Cursor {
    c.(i := c.i + 1, at := if c.mode.Holding? then Refused else Looking)
  }

  ghost predicate Sane(d: Drainer) {
    && WellFormed(d.pass)
    && d.cursor.i <= |d.pass.due|
    && d.cursor.sent <= |d.pass.due|
    && (d.cursor.i == |d.pass.due| ==> if d.cursor.mode.Holding? then d.cursor.at.Refused? else d.cursor.at.Looking?)
    && (d.cursor.at.Accepted? ==> OutboxRuns.Pending(d.cursor.at.state))
    && (d.cursor.mode.Holding? ==> d.cursor.at.Refused? || d.cursor.at.Failed? || d.cursor.at.Delaying?)
    && (d.cursor.mode.ByRelay? ==> d.cursor.at.Looking? || d.cursor.at.Accepted? || d.cursor.at.Delaying?)
    && (d.cursor.mode.ByRelay? ==> d.cursor.sent <= d.cursor.i)
  }

  ghost function Micro(db: Db, p: Pass, c: Cursor): (Db, Cursor)
    requires Sane(Drainer(p, c)) && !Over(p, c)
  {
    if c.i == |p.due| then (db, Cursor(Holding, c.sent, Refused, c.sent))
    else
      var row := p.due[c.i];
      var at := if c.mode.ByRelay? then p.relayedAt[c.i] else p.waitedAt[c.i];
      match c.at
      case Looking =>
        if c.mode.Direct? then
          (db, c.(at := if row.eventId !in db.events then Gone
                        else if p.sends[c.i] then Accepted(DirectSending) else Refused))
        else if row.eventId !in db.events then (db, NextRow(c))
        else if p.accepts[c.i] then (db, c.(at := Accepted(CloudQueued)))
        else (db, Cursor(Holding, c.sent, Refused, c.sent))
      case Gone => (Dequeue(db, row.eventId), NextRow(c))
      case Accepted(state) => (SetState(db, row.eventId, state), c.(at := Delaying(None)))
      case Refused =>
        if row.attemptCount + 1 >= MAX_ATTEMPTS then (SetState(db, row.eventId, FailedFinal), c.(at := Failed))
        else (SetState(db, row.eventId, WaitingForPc), c.(at := Delaying(Some(p.linkError))))
      case Failed => (Dequeue(db, row.eventId), NextRow(c))
      case Delaying(error) =>
        (Reschedule(db, row.eventId, row.attemptCount + 1, at + Backoff(row.attemptCount), error),
         NextRow(if c.mode.ByRelay? then c.(sent := c.sent + 1) else c))
  }

  // ---------------------------------------------------------------- runs

  function Handled(s: State, id: string): nat { if id in s.handled then s.handled[id] else 0 }

  ghost predicate Allowed(s: State, op: Op) {
    match op
    case Send(event, row) => event.eventId == row.eventId && !event.fromAssistant && row.attemptCount == 0
    case Begin(k, p) => k !in s.drainers && WellFormed(p) && DueRows(s.db, p.due, p.queriedAt, BATCH)
    case Move(k) => k in s.drainers && Sane(s.drainers[k]) && !Over(s.drainers[k].pass, s.drainers[k].cursor)
    case AckWrite(k, _, state) => k !in s.acks && (state.PcReceived? || state.Completed?)
    case AckRemove(k) => k in s.acks
    case Receive(row) => row.fromAssistant
    case _ => true
  }

  function Current(d: Drainer): Option<OutboxRow> {
    if d.cursor.i < |d.pass.due| then Some(d.pass.due[d.cursor.i]) else None
  }

  /** This statement of the drainer writes failed_final, finds the event missing, or ends a handling. */
  predicate GivesUp(d: Drainer) {
    Current(d).Some? && d.cursor.at.Refused? && Current(d).value.attemptCount + 1 >= MAX_ATTEMPTS
  }

  predicate FindsGone(db: Db, d: Drainer) {
    Current(d).Some? && d.cursor.at.Looking? && d.cursor.mode.Direct? && Current(d).value.eventId !in db.events
  }

  predicate EndsHandling(d: Drainer) {
    Current(d).Some? && (d.cursor.at.Delaying? || GivesUp(d))
  }

  /** The queueing that a message is in. */
  function LifeOf(past: Past, id: string): Life { Life(id, if id in past.lives then past.lives[id] else 0) }

  function NewLives(past: Past, ids: seq<string>): Past {
    past.(lives := map id | id in past.lives.Keys + (set i | 0 <= i < |ids| :: ids[i]) ::
            if id in ids then LifeOf(past, id).n + 1 else past.lives[id])
  }

  /** A row is removed by a decision about queueing `n`. */
  function Removing(past: Past, db: Db, id: string, n: nat): Past {
    if id in db.outbox && n < LifeOf(past, id).n then past.(overtaken := past.overtaken + {LifeOf(past, id)}) else past
  }

  function PastOfMove(s: State, k: nat, d: Drainer): Past {
    if Current(d).None? then s.past
    else
      var id := Current(d).value.eventId;
      var life := LifeOf(s.past, id);
      if GivesUp(d) then s.past.(decided := s.past.decided[k := life.n], gaveUp := s.past.gaveUp + {life})
      else if FindsGone(s.db, d) then s.past.(decided := s.past.decided[k := life.n], seenGone := s.past.seenGone + {life})
      else if d.cursor.at.Failed? || d.cursor.at.Gone? then
        Removing(s.past, s.db, id, if k in s.past.decided then s.past.decided[k] else 0)
      else s.past
  }

  ghost function PastAfter(s: State, op: Op): Past
    requires Allowed(s, op)
  {
    match op
    case Send(_, row) => if row.eventId in s.db.outbox then s.past else NewLives(s.past, [row.eventId])
    case Retry(ids, nowMs) => if RetryBatch(s.db, ids, nowMs).1 then NewLives(s.past, ids) else s.past
    case Move(k) => PastOfMove(s, k, s.drainers[k])
    case AckWrite(_, id, _) => s.past.(acked := s.past.acked + {LifeOf(s.past, id)})
    case AckRemove(k) => Removing(s.past, s.db, s.acks[k].id, s.acks[k].n)
    case _ => s.past
  }

  ghost function Step(s: State, op: Op): State
    requires Allowed(s, op)
  {
    var past := PastAfter(s, op);
    match op
    case Send(event, row) => s.(db := EnqueueOutgoing(s.db, event, row), past := past)
    case Begin(k, p) => s.(drainers := s.drainers[k := Drainer(p, First(p))])
    case Move(k) =>
      var d := s.drainers[k];
      var (db, c) := Micro(s.db, d.pass, d.cursor);
      s.(db := db, drainers := s.drainers[k := Drainer(d.pass, c)], past := past,
         handled := if EndsHandling(d)
                    then s.handled[Current(d).value.eventId := Handled(s, Current(d).value.eventId) + 1] else s.handled)
    case Die(k) => s.(drainers := s.drainers - {k})
    case Restart => s.(drainers := map[], acks := map[])
    case AckWrite(k, id, state) =>
      s.(db := SetState(s.db, id, state), acks := s.acks[k := LifeOf(s.past, id)], past := past)
    case AckRemove(k) => s.(db := Dequeue(s.db, s.acks[k].id), acks := s.acks - {k}, past := past)
    case Retry(ids, nowMs) => s.(db := RetryBatch(s.db, ids, nowMs).0, past := past)
    case Purge(beforeMs) => s.(db := PurgeChunks(s.db, beforeMs))
    case Receive(row) => s.(db := InsertEvent(s.db, row))
  }

  ghost predicate AllAllowed(s: State, ops: seq<Op>)
    decreases ops
  {
    ops == [] || (Allowed(s, ops[0]) && AllAllowed(Step(s, ops[0]), ops[1..]))
  }

  ghost function RunAll(s: State, ops: seq<Op>): State
    requires AllAllowed(s, ops)
    decreases ops
  {
    if ops == [] then s else RunAll(Step(s, ops[0]), ops[1..])
  }

  // ---------------------------------------------------------------- where every queued message is

  /** What was decided about this queueing, or about an earlier one and carried out on this. */
  predicate Settled(past: Past, life: Life) {
    life in past.acked || life in past.gaveUp || life in past.seenGone || life in past.overtaken
  }

  /** The present queueing of a message is still in the outbox, or has been settled. */
  ghost predicate Accounted(s: State, id: string) {
    LifeOf(s.past, id).n > 0 ==> id in s.db.outbox || Settled(s.past, LifeOf(s.past, id))
  }

  /** A count of attempts never runs ahead of the handlings that really ended. */
  ghost predicate Counted(s: State, id: string) {
    && (id in s.db.outbox ==> s.db.outbox[id].eventId == id && 0 <= s.db.outbox[id].attemptCount <= Handled(s, id))
    && (id in s.db.events ==> s.db.events[id].eventId == id)
  }

  ghost predicate DrainerInv(s: State, d: Drainer) {
    && Sane(d)
    && (forall i :: 0 <= i < |d.pass.due| ==> d.pass.due[i].attemptCount <= Handled(s, d.pass.due[i].eventId))
  }

  /** A pass that is about to remove a row has recorded why, and for which queueing. */
  ghost predicate DecisionSound(s: State, k: nat) {
    k in s.drainers && Current(s.drainers[k]).Some? ==>
      var d, id := s.drainers[k], Current(s.drainers[k]).value.eventId;
      && (d.cursor.at.Failed? || d.cursor.at.Gone? ==>
            k in s.past.decided && s.past.decided[k] <= LifeOf(s.past, id).n)
      && (d.cursor.at.Failed? ==> Life(id, s.past.decided[k]) in s.past.gaveUp)
      && (d.cursor.at.Gone? ==> Life(id, s.past.decided[k]) in s.past.seenGone)
  }

  ghost predicate AckSound(s: State, k: nat) {
    k in s.acks ==> s.acks[k] in s.past.acked && s.acks[k].n <= LifeOf(s.past, s.acks[k].id).n
  }

  /** Whatever was given up had been handled twelve times. */
  ghost predicate TwelveTimes(s: State, life: Life) {
    life in s.past.gaveUp ==> Handled(s, life.id) >= MAX_ATTEMPTS
  }

  ghost predicate Inv(s: State) {
    && (forall id :: Accounted(s, id))
    && (forall id :: Counted(s, id))
    && (forall k {:trigger DrainerInv(s, s.drainers[k])} :: k in s.drainers ==> DrainerInv(s, s.drainers[k]))
    && (forall k :: DecisionSound(s, k))
    && (forall k :: AckSound(s, k))
    && (forall life :: TwelveTimes(s, life))
  }

  lemma MicroKeepsSane(db: Db, p: Pass, c: Cursor)
    requires Sane(Drainer(p, c)) && !Over(p, c)
    ensures Sane(Drainer(p, Micro(db, p, c).1))
  {
  }

  /** One statement of a pass: the history it leaves covers the row it may have removed. */
  lemma MoveKeepsOthers(s: State, k: nat, j: nat)
    requires Inv(s) && Allowed(s, Move(k)) && j in Step(s, Move(k)).drainers
    ensures DrainerInv(Step(s, Move(k)), Step(s, Move(k)).drainers[j])
  {
    var t, d := Step(s, Move(k)), s.drainers[k];
    MicroKeepsSane(s.db, d.pass, d.cursor);
    var e := s.drainers[j];
    assert DrainerInv(s, e) && DrainerInv(s, d);
    forall i | 0 <= i < |e.pass.due|
      ensures e.pass.due[i].attemptCount <= Handled(t, e.pass.due[i].eventId)
    {
      assert Handled(s, e.pass.due[i].eventId) <= Handled(t, e.pass.due[i].eventId);
    }
  }

  lemma MoveKeepsCounts(s: State, k: nat, id: string)
    requires Inv(s) && Allowed(s, Move(k))
    ensures Counted(Step(s, Move(k)), id)
  {
    assert Counted(s, id);
    var d := s.drainers[k];
    assert DrainerInv(s, d);
    if Current(d).Some? {
      assert Current(d).value == d.pass.due[d.cursor.i];
    }
  }

  lemma RetryKeeps(s: State, ids: seq<string>, nowMs: int, id: string)
    requires Inv(s)
    ensures Counted(Step(s, Retry(ids, nowMs)), id)
    ensures RetryBatch(s.db, ids, nowMs).1 && id in ids ==> id in Step(s, Retry(ids, nowMs)).db.outbox
    ensures id in s.db.outbox ==> id in Step(s, Retry(ids, nowMs)).db.outbox
  {
    assert Counted(s, id);
    if RetryBatch(s.db, ids, nowMs).1 {
      forall i | 0 <= i < |ids| ensures ids[i] in s.db.events && s.db.events[ids[i]].eventId == ids[i] {
        assert CanRetry(s.db, ids[i]) && Counted(s, ids[i]);
      }
      RetryAllOutcome(s.db, ids, nowMs, id);
    }
  }

  lemma OtherOpsKeep(s: State, op: Op, id: string)
    requires Inv(s) && Allowed(s, op) && !op.Move? && !op.Retry?
    ensures Counted(Step(s, op), id)
  {
    assert Counted(s, id);
  }

  // ---------------------------------------------------------------- the history of each queueing

  /** Decisions are only added, and queueings only succeed one another. */
  lemma PastGrows(s: State, op: Op, life: Life)
    requires Allowed(s, op)
    ensures LifeOf(s.past, life.id).n <= LifeOf(Step(s, op).past, life.id).n
    ensures life in s.past.acked ==> life in Step(s, op).past.acked
    ensures life in s.past.gaveUp ==> life in Step(s, op).past.gaveUp
    ensures life in s.past.seenGone ==> life in Step(s, op).past.seenGone
    ensures Settled(s.past, life) ==> Settled(Step(s, op).past, life)
    ensures Handled(s, life.id) <= Handled(Step(s, op), life.id)
  {
  }

  /** A queueing begins only with its row in the outbox. */
  lemma NewLifeIsQueued(s: State, op: Op, id: string)
    requires Inv(s) && Allowed(s, op) && LifeOf(Step(s, op).past, id) != LifeOf(s.past, id)
    ensures id in Step(s, op).db.outbox
  {
    match op
    case Retry(ids, nowMs) => RetryKeeps(s, ids, nowMs, id);
    case _ =>
  }

  lemma RemovalIsAccounted(s: State, op: Op, id: string)
    requires Inv(s) && Allowed(s, op) && id in s.db.outbox && id !in Step(s, op).db.outbox
    ensures Settled(Step(s, op).past, LifeOf(s.past, id))
  {
    assert Counted(s, id);
    match op
    case Retry(ids, nowMs) => RetryKeeps(s, ids, nowMs, id);
    case Move(k) => assert DecisionSound(s, k);
    case AckRemove(k) => assert AckSound(s, k);
    case _ =>
  }

  lemma StepKeepsAccount(s: State, op: Op, id: string)
    requires Inv(s) && Allowed(s, op)
    ensures Accounted(Step(s, op), id)
  {
    assert Accounted(s, id);
    PastGrows(s, op, LifeOf(s.past, id));
    if LifeOf(Step(s, op).past, id) != LifeOf(s.past, id) {
      NewLifeIsQueued(s, op, id);
    } else if id in s.db.outbox && id !in Step(s, op).db.outbox {
      RemovalIsAccounted(s, op, id);
    }
  }

  lemma StepKeepsDecision(s: State, op: Op, j: nat)
    requires Inv(s) && Allowed(s, op)
    ensures DecisionSound(Step(s, op), j)
  {
    var t := Step(s, op);
    assert DecisionSound(s, j);
    if j in t.drainers && Current(t.drainers[j]).Some? {
      var id := Current(t.drainers[j]).value.eventId;
      PastGrows(s, op, LifeOf(s.past, id));
      if j in s.past.decided { PastGrows(s, op, Life(id, s.past.decided[j])); }
    }
  }

  lemma StepKeepsAck(s: State, op: Op, j: nat)
    requires Inv(s) && Allowed(s, op)
    ensures AckSound(Step(s, op), j)
  {
    assert AckSound(s, j);
    if j in s.acks { PastGrows(s, op, s.acks[j]); }
  }

  lemma StepKeepsTwelve(s: State, op: Op, life: Life)
    requires Inv(s) && Allowed(s, op)
    ensures TwelveTimes(Step(s, op), life)
  {
    assert TwelveTimes(s, life);
    PastGrows(s, op, life);
    if op.Move? && Current(s.drainers[op.k]).Some? {
      var d := s.drainers[op.k];
      assert DrainerInv(s, d);
      assert Current(d).value == d.pass.due[d.cursor.i];
    }
  }

  lemma BeginIsSound(s: State, k: nat, p: Pass)
    requires Inv(s) && Allowed(s, Begin(k, p))
    ensures DrainerInv(Step(s, Begin(k, p)), Drainer(p, First(p)))
  {
    forall i | 0 <= i < |p.due| ensures p.due[i].attemptCount <= Handled(s, p.due[i].eventId) {
      assert IsDue(s.db, p.due[i], p.queriedAt) && Counted(s, p.due[i].eventId);
    }
  }

  lemma StepKeepsCount(s: State, op: Op, id: string)
    requires Inv(s) && Allowed(s, op)
    ensures Counted(Step(s, op), id)
  {
    match op
    case Move(k) => MoveKeepsCounts(s, k, id);
    case Retry(ids, nowMs) => RetryKeeps(s, ids, nowMs, id);
    case _ => OtherOpsKeep(s, op, id);
  }

  lemma StepKeepsDrainer(s: State, op: Op, j: nat)
    requires Inv(s) && Allowed(s, op) && j in Step(s, op).drainers
    ensures DrainerInv(Step(s, op), Step(s, op).drainers[j])
  {
    match op
    case Move(k) => MoveKeepsOthers(s, k, j);
    case Begin(k, p) =>
      BeginIsSound(s, k, p);
      if j != k { assert DrainerInv(s, s.drainers[j]); }
    case _ => assert DrainerInv(s, s.drainers[j]);
  }

  lemma StepKeepsInv(s: State, op: Op)
    requires Inv(s) && Allowed(s, op)
    ensures Inv(Step(s, op))
  {
    var t := Step(s, op);
    forall id ensures Accounted(t, id) { StepKeepsAccount(s, op, id); }
    forall id ensures Counted(t, id) { StepKeepsCount(s, op, id); }
    forall j | j in t.drainers ensures DrainerInv(t, t.drainers[j]) { StepKeepsDrainer(s, op, j); }
    forall j ensures DecisionSound(t, j) { StepKeepsDecision(s, op, j); }
    forall j ensures AckSound(t, j) { StepKeepsAck(s, op, j); }
    forall life ensures TwelveTimes(t, life) { StepKeepsTwelve(s, op, life); }
  }

  lemma {:induction false} NothingIsLost(s: State, ops: seq<Op>)
    requires Inv(s) && AllAllowed(s, ops)
    ensures Inv(RunAll(s, ops))
    decreases ops
  {
    if ops != [] {
      StepKeepsInv(s, ops[0]);
      NothingIsLost(Step(s, ops[0]), ops[1..]);
    }
  }

  lemma StartIsSound()
    ensures Inv(START)
  {
    assert forall id :: Accounted(START, id) && Counted(START, id);
    assert forall k :: DecisionSound(START, k) && AckSound(START, k);
    assert forall life :: TwelveTimes(START, life);
  }

  /**
   * Over every interleaving, with deaths anywhere: since it was last sent or retried, a message is in
   * the outbox, or was acknowledged, or was given up by a pass (twelve handlings of it having ended),
   * or was found missing by a pass; or its row was removed by a decision made before that retry.
   */
  lemma NothingIsLostFromTheStart(ops: seq<Op>, id: string)
    requires AllAllowed(START, ops)
    ensures var s := RunAll(START, ops);
            var life := LifeOf(s.past, id);
            life.n > 0 ==>
              || id in s.db.outbox || life in s.past.acked || life in s.past.seenGone
              || (life in s.past.gaveUp && Handled(s, id) >= MAX_ATTEMPTS) || life in s.past.overtaken
  {
    StartIsSound();
    NothingIsLost(START, ops);
    var s := RunAll(START, ops);
    assert Accounted(s, id) && TwelveTimes(s, LifeOf(s.past, id));
  }

  /** A queueing is overtaken exactly when its row is removed by a decision about an earlier one. */
  lemma OvertakenExactlyWhen(s: State, op: Op, id: string)
    requires Inv(s) && Allowed(s, op) && LifeOf(s.past, id) !in s.past.overtaken
    ensures LifeOf(s.past, id) in Step(s, op).past.overtaken
       <==> && id in s.db.outbox && id !in Step(s, op).db.outbox
            && if op.Move? then op.k in s.past.decided && s.past.decided[op.k] < LifeOf(s.past, id).n
               else op.AckRemove? && s.acks[op.k].n < LifeOf(s.past, id).n
  {
    assert Counted(s, id);
    match op
    case Retry(ids, nowMs) => RetryKeeps(s, ids, nowMs, id);
    case Move(k) => assert DecisionSound(s, k) && DrainerInv(s, s.drainers[k]);
    case _ =>
  }

  /** The only statements that take a row out of the outbox. */
  lemma LeavesOnlyBy(s: State, op: Op, id: string)
    requires Inv(s) && Allowed(s, op) && id in s.db.outbox
    ensures id !in Step(s, op).db.outbox
       <==> || (op.AckRemove? && s.acks[op.k].id == id)
            || (op.Move? && (s.drainers[op.k].cursor.at.Failed? || s.drainers[op.k].cursor.at.Gone?)
                && Current(s.drainers[op.k]).Some? && Current(s.drainers[op.k]).value.eventId == id)
    ensures id !in Step(s, op).db.outbox ==> Settled(Step(s, op).past, LifeOf(s.past, id))
  {
    assert Counted(s, id);
    if id !in Step(s, op).db.outbox { RemovalIsAccounted(s, op, id); }
    match op
    case Retry(ids, nowMs) => RetryKeeps(s, ids, nowMs, id);
    case Move(k) => assert DrainerInv(s, s.drainers[k]);
    case _ =>
  }

  // ---------------------------------------------------------------- state and outbox can part

  /** Shown as on its way, yet nothing will ever send it. */
  ghost predicate Stranded(db: Db, id: string) {
    id in db.events && !db.events[id].fromAssistant && OutboxRuns.Pending(db.events[id].state) && id !in db.outbox
  }

  /** A pass is about to write for a row that has left the outbox, or to remove one that is pending again. */
  ghost predicate Outdated(s: State, op: Op, id: string) {
    && id in s.db.events && !s.db.events[id].fromAssistant
    && match op
       case AckRemove(k) => k in s.acks && s.acks[k].id == id && id in s.db.outbox && OutboxRuns.Pending(s.db.events[id].state)
       case Move(k) =>
         && k in s.drainers
         && var d := s.drainers[k];
         && Current(d).Some? && Current(d).value.eventId == id
         && (if d.cursor.at.Failed? || d.cursor.at.Gone?
             then id in s.db.outbox && OutboxRuns.Pending(s.db.events[id].state)
             else (d.cursor.at.Accepted? || (d.cursor.at.Refused? && !GivesUp(d))) && id !in s.db.outbox)
       case _ => false
  }

  lemma RetryStrandsNothing(s: State, ids: seq<string>, nowMs: int, id: string)
    requires Inv(s) && !Stranded(s.db, id)
    ensures !Stranded(Step(s, Retry(ids, nowMs)).db, id)
  {
    if RetryBatch(s.db, ids, nowMs).1 {
      forall i | 0 <= i < |ids| ensures ids[i] in s.db.events && s.db.events[ids[i]].eventId == ids[i] {
        assert CanRetry(s.db, ids[i]) && Counted(s, ids[i]);
      }
      RetryAllOutcome(s.db, ids, nowMs, id);
    }
  }

  lemma MoveStrandsExactlyWhen(s: State, k: nat, id: string)
    requires Inv(s) && Allowed(s, Move(k)) && !Stranded(s.db, id)
    ensures Stranded(Step(s, Move(k)).db, id) <==> Outdated(s, Move(k), id)
  {
    assert DrainerInv(s, s.drainers[k]);
  }

  /** A message becomes stranded exactly by an outdated statement; no other interleaving does it. */
  lemma StrandsExactlyWhen(s: State, op: Op, id: string)
    requires Inv(s) && Allowed(s, op) && !Stranded(s.db, id)
    ensures Stranded(Step(s, op).db, id) <==> Outdated(s, op, id)
  {
    match op
    case Retry(ids, nowMs) => RetryStrandsNothing(s, ids, nowMs, id);
    case Move(k) => MoveStrandsExactlyWhen(s, k, id);
    case _ => assert Counted(s, id);
  }

  /** No statement of the run is outdated. */
  ghost predicate NoneOutdated(s: State, ops: seq<Op>, id: string)
    requires AllAllowed(s, ops)
    decreases ops
  {
    ops == [] || (!Outdated(s, ops[0], id) && NoneOutdated(Step(s, ops[0]), ops[1..], id))
  }

  /** In a run with no outdated statement for a message, the message is never stranded. */
  lemma {:induction false} TimelyRunStrandsNothing(s: State, ops: seq<Op>, id: string)
    requires Inv(s) && AllAllowed(s, ops) && NoneOutdated(s, ops, id) && !Stranded(s.db, id)
    ensures !Stranded(RunAll(s, ops).db, id)
    decreases ops
  {
    if ops != [] {
      StrandsExactlyWhen(s, ops[0], id);
      StepKeepsInv(s, ops[0]);
      TimelyRunStrandsNothing(Step(s, ops[0]), ops[1..], id);
    }
  }

  lemma RunCons(s: State, op: Op, ops: seq<Op>)
    requires Allowed(s, op) && AllAllowed(Step(s, op), ops)
    ensures AllAllowed(s, [op] + ops) && RunAll(s, [op] + ops) == RunAll(Step(s, op), ops)
  {
    assert ([op] + ops)[1..] == ops;
  }

  /**
   * Whenever the acknowledgement of a message lands between its sending and the state write of the
   * pass, that write puts the message back on its way with nothing left to send it.
   */
  lemma AckDuringSendStrands(s: State, k: nat, j: nat, state: DeliveryState)
    requires Inv(s) && Allowed(s, Move(k)) && j !in s.acks && (state.PcReceived? || state.Completed?)
    requires Current(s.drainers[k]).Some? && s.drainers[k].cursor.at.Accepted?
    requires var id := Current(s.drainers[k]).value.eventId;
             id in s.db.events && !s.db.events[id].fromAssistant
    ensures var id := Current(s.drainers[k]).value.eventId;
            && AllAllowed(s, [AckWrite(j, id, state), AckRemove(j), Move(k)])
            && Stranded(RunAll(s, [AckWrite(j, id, state), AckRemove(j), Move(k)]).db, id)
  {
    var id := Current(s.drainers[k]).value.eventId;
    var s1 := Step(s, AckWrite(j, id, state));
    var s2 := Step(s1, AckRemove(j));
    var s3 := Step(s2, Move(k));
    assert AllAllowed(s3, []) && RunAll(s3, []) == s3;
    RunCons(s2, Move(k), []);
    RunCons(s1, AckRemove(j), [Move(k)]);
    RunCons(s, AckWrite(j, id, state), [AckRemove(j), Move(k)]);
    assert DrainerInv(s, s.drainers[k]);
    assert id in s3.db.events && id !in s3.db.outbox;
  }

  /**
   * Whenever the user retries a message between the failed_final write of a pass and the removal that
   * follows it, the retry succeeds and the removal takes the new outbox row.
   */
  lemma RetryDuringFailureStrands(s: State, k: nat, nowMs: int)
    requires Inv(s) && Allowed(s, Move(k))
    requires Current(s.drainers[k]).Some? && s.drainers[k].cursor.at.Failed?
    requires CanRetry(s.db, Current(s.drainers[k]).value.eventId)
    ensures var id := Current(s.drainers[k]).value.eventId;
            && RetryBatch(s.db, [id], nowMs).1
            && AllAllowed(s, [Retry([id], nowMs), Move(k)])
            && Stranded(RunAll(s, [Retry([id], nowMs), Move(k)]).db, id)
  {
    var id := Current(s.drainers[k]).value.eventId;
    var db := s.db;
    assert Counted(s, id);
    assert Rows(db, [id]) == [db.events[id]];
    assert RetryAll(db, [db.events[id]][..0], nowMs) == db;
    assert RetryAll(db, [db.events[id]], nowMs) == RetryOne(db, db.events[id], nowMs);
    var s1 := Step(s, Retry([id], nowMs));
    assert s1.db == RetryOne(db, db.events[id], nowMs);
    var s2 := Step(s1, Move(k));
    assert AllAllowed(s2, []) && RunAll(s2, []) == s2;
    RunCons(s1, Move(k), []);
    RunCons(s, Retry([id], nowMs), [Move(k)]);
  }

  // ---------------------------------------------------------------- both failures, from the start

  ghost predicate Strands(s: State, ops: seq<Op>, id: string) {
    AllAllowed(s, ops) && Stranded(RunAll(s, ops).db, id)
  }

  lemma StrandsCons(s: State, op: Op, ops: seq<Op>, id: string)
    requires Allowed(s, op) && Strands(Step(s, op), ops, id)
    ensures Strands(s, [op] + ops, id)
  {
    RunCons(s, op, ops);
  }

  ghost predicate IsNew(event: EventRow) { !event.fromAssistant && event.state.LocalPending? }

  /** The outbox row of the message after `n` handlings, each at the earliest moment. */
  function RowAfter(event: EventRow, n: nat): OutboxRow {
    OutboxRow(event.eventId, event.threadId, 0, n, BackoffSum(n), if n == 0 then None else Some("PC injoignable"))
  }

  function DbAfter(event: EventRow, n: nat): Db {
    Db(map[event.eventId := event.(state := if n == 0 then event.state else WaitingForPc)],
       map[event.eventId := RowAfter(event, n)])
  }

  function PassAfter(event: EventRow, n: nat, online: bool): Pass {
    var t := BackoffSum(n);
    Pass(t, [RowAfter(event, n)], online, [true], false, [false], [t], [t], "PC injoignable")
  }

  lemma OnlyRowIsDue(event: EventRow, n: nat, online: bool)
    ensures WellFormed(PassAfter(event, n, online))
    ensures DueRows(DbAfter(event, n), PassAfter(event, n, online).due, PassAfter(event, n, online).queriedAt, BATCH)
  {
    var row := RowAfter(event, n);
    assert PassAfter(event, n, online).due[0] == row;
  }

  /** The message has been refused `n` times and no pass is under way. */
  ghost predicate Resting(s: State, event: EventRow, n: nat) {
    Inv(s) && s.db == DbAfter(event, n) && s.drainers == map[] && s.acks == map[]
  }

  lemma SendGives(event: EventRow)
    requires IsNew(event)
    ensures Allowed(START, Send(event, RowAfter(event, 0)))
    ensures Resting(Step(START, Send(event, RowAfter(event, 0))), event, 0)
  {
    StartIsSound();
    StepKeepsInv(START, Send(event, RowAfter(event, 0)));
    assert Step(START, Send(event, RowAfter(event, 0))).db == DbAfter(event, 0);
  }

  lemma BeginGives(s: State, event: EventRow, n: nat, online: bool)
    requires Resting(s, event, n)
    ensures Allowed(s, Begin(n, PassAfter(event, n, online)))
    ensures var p := PassAfter(event, n, online);
            var t := Step(s, Begin(n, p));
            Inv(t) && t.db == s.db && t.acks == map[] && t.drainers == map[n := Drainer(p, First(p))] && Sane(t.drainers[n])
  {
    OnlyRowIsDue(event, n, online);
    StepKeepsInv(s, Begin(n, PassAfter(event, n, online)));
  }

  /** The state write of a refusal. */
  lemma RefusalGives(s: State, event: EventRow, n: nat)
    requires Inv(s) && s.db == DbAfter(event, n) && s.acks == map[]
    requires var p := PassAfter(event, n, false); s.drainers == map[n := Drainer(p, First(p))] && Sane(s.drainers[n])
    ensures Allowed(s, Move(n))
    ensures var t, last := Step(s, Move(n)), n + 1 >= MAX_ATTEMPTS;
            && Inv(t) && t.acks == map[] && t.db.outbox == s.db.outbox
            && t.db.events == map[event.eventId := event.(state := if last then FailedFinal else WaitingForPc)]
            && t.drainers == map[n := Drainer(PassAfter(event, n, false),
                 Cursor(Holding, 0, if last then Failed else Delaying(Some("PC injoignable")), 0))]
            && Sane(t.drainers[n])
  {
    StepKeepsInv(s, Move(n));
    MicroKeepsSane(s.db, s.drainers[n].pass, s.drainers[n].cursor);
  }

  lemma DelayGives(s: State, event: EventRow, n: nat)
    requires Inv(s) && s.acks == map[] && s.db.outbox == DbAfter(event, n).outbox
    requires s.db.events == DbAfter(event, n + 1).events
    requires s.drainers == map[n := Drainer(PassAfter(event, n, false), Cursor(Holding, 0, Delaying(Some("PC injoignable")), 0))]
    requires Sane(s.drainers[n])
    ensures Allowed(s, Move(n))
    ensures var t := Step(s, Move(n));
            Inv(t) && t.acks == map[] && t.db == DbAfter(event, n + 1) && t.drainers.Keys == {n}
  {
    StepKeepsInv(s, Move(n));
    assert Step(s, Move(n)).db.outbox == DbAfter(event, n + 1).outbox;
  }

  lemma DieGives(s: State, event: EventRow, n: nat)
    requires Inv(s) && s.acks == map[] && s.db == DbAfter(event, n + 1) && s.drainers.Keys == {n}
    ensures Resting(Step(s, Die(n)), event, n + 1)
  {
    StepKeepsInv(s, Die(n));
    assert Step(s, Die(n)).drainers == map[];
  }

  /** Refusals up to the twelfth, which writes failed_final; the user retries before the row is removed. */
  function FromRefusal(event: EventRow, n: nat, nowMs: int): seq<Op>
    decreases 11 - n
  {
    if n >= 11 then [Begin(n, PassAfter(event, n, false))] + ([Move(n)] + [Retry([event.eventId], nowMs), Move(n)])
    else [Begin(n, PassAfter(event, n, false))] + ([Move(n)] + ([Move(n)] + ([Die(n)] + FromRefusal(event, n + 1, nowMs))))
  }

  lemma {:induction false} RefusalsStrand(s: State, event: EventRow, n: nat, nowMs: int)
    requires IsNew(event) && n <= 11 && Resting(s, event, n)
    ensures Strands(s, FromRefusal(event, n, nowMs), event.eventId)
    decreases 11 - n
  {
    var begin := Begin(n, PassAfter(event, n, false));
    BeginGives(s, event, n, false);
    var s1 := Step(s, begin);
    RefusalGives(s1, event, n);
    var s2 := Step(s1, Move(n));
    if n == 11 {
      RetryDuringFailureStrands(s2, n, nowMs);
      StrandsCons(s1, Move(n), [Retry([event.eventId], nowMs), Move(n)], event.eventId);
    } else {
      var rest := FromRefusal(event, n + 1, nowMs);
      RoundStrands(s1, s2, event, n, rest, nowMs);
    }
    StrandsCons(s, begin, FromRefusal(event, n, nowMs)[1..], event.eventId);
  }

  lemma {:induction false} RoundStrands(s1: State, s2: State, event: EventRow, n: nat, rest: seq<Op>, nowMs: int)
    requires IsNew(event) && n < 11 && rest == FromRefusal(event, n + 1, nowMs)
    requires Allowed(s1, Move(n)) && s2 == Step(s1, Move(n)) && Inv(s2) && s2.acks == map[]
    requires s2.db.outbox == DbAfter(event, n).outbox && s2.db.events == DbAfter(event, n + 1).events
    requires s2.drainers == map[n := Drainer(PassAfter(event, n, false), Cursor(Holding, 0, Delaying(Some("PC injoignable")), 0))]
    requires Sane(s2.drainers[n])
    ensures Strands(s1, [Move(n)] + ([Move(n)] + ([Die(n)] + rest)), event.eventId)
    decreases 11 - n, 0
  {
    DelayGives(s2, event, n);
    var s3 := Step(s2, Move(n));
    DieGives(s3, event, n);
    RefusalsStrand(Step(s3, Die(n)), event, n + 1, nowMs);
    StrandsCons(s3, Die(n), rest, event.eventId);
    StrandsCons(s2, Move(n), [Die(n)] + rest, event.eventId);
    StrandsCons(s1, Move(n), [Move(n)] + ([Die(n)] + rest), event.eventId);
  }

  /** From the start: eleven refusals, the twelfth writes failed_final, and the user retries before the removal. */
  lemma RetryStrandsFromTheStart(event: EventRow, nowMs: int)
    requires IsNew(event)
    ensures Strands(START, [Send(event, RowAfter(event, 0))] + FromRefusal(event, 0, nowMs), event.eventId)
  {
    SendGives(event);
    RefusalsStrand(Step(START, Send(event, RowAfter(event, 0))), event, 0, nowMs);
    StrandsCons(START, Send(event, RowAfter(event, 0)), FromRefusal(event, 0, nowMs), event.eventId);
  }

  /** From the start: the message is sent, and acknowledged before the pass has written its state. */
  lemma AckStrandsFromTheStart(event: EventRow)
    requires IsNew(event)
    ensures Strands(START, [Send(event, RowAfter(event, 0))] + ([Begin(0, PassAfter(event, 0, true))] + ([Move(0)]
                    + [AckWrite(0, event.eventId, PcReceived), AckRemove(0), Move(0)])), event.eventId)
  {
    var id, p := event.eventId, PassAfter(event, 0, true);
    SendGives(event);
    var s := Step(START, Send(event, RowAfter(event, 0)));
    BeginGives(s, event, 0, true);
    var s1 := Step(s, Begin(0, p));
    StepKeepsInv(s1, Move(0));
    var s2 := Step(s1, Move(0));
    assert s2.drainers[0] == Drainer(p, First(p).(at := Accepted(DirectSending)));
    var rest := [AckWrite(0, id, PcReceived), AckRemove(0), Move(0)];
    AckDuringSendStrands(s2, 0, 0, PcReceived);
    StrandsCons(s1, Move(0), rest, id);
    StrandsCons(s, Begin(0, p), [Move(0)] + rest, id);
    StrandsCons(START, Send(event, RowAfter(event, 0)), [Begin(0, p)] + ([Move(0)] + rest), id);
  }

  // ---------------------------------------------------------------- an undisturbed pass is atomic

  ghost function Left(p: Pass, c: Cursor): nat
    requires Sane(Drainer(p, c))
  {
    (if c.mode.ByRelay? then 8 * |p.due| + 8 else 0) + 8 * (|p.due| - c.i)
    + (match c.at case Looking => 4 case Gone => 1 case Accepted(_) => 2 case Refused => 3 case Failed => 1 case Delaying(_) => 1)
  }

  lemma MicroProgresses(db: Db, p: Pass, c: Cursor)
    requires Sane(Drainer(p, c)) && !Over(p, c)
    ensures Sane(Drainer(p, Micro(db, p, c).1)) && Left(p, Micro(db, p, c).1) < Left(p, c)
  {
  }

  /** Carrying a pass to its end with no other statement in between. */
  ghost function Alone(db: Db, p: Pass, c: Cursor): Db
    requires Sane(Drainer(p, c))
    decreases Left(p, c)
  {
    if Over(p, c) then db
    else
      MicroProgresses(db, p, c);
      var (d, next) := Micro(db, p, c);
      Alone(d, p, next)
  }

  lemma AloneStep(db: Db, p: Pass, c: Cursor)
    requires Sane(Drainer(p, c)) && !Over(p, c)
    ensures Sane(Drainer(p, Micro(db, p, c).1))
    ensures Alone(db, p, c) == Alone(Micro(db, p, c).0, p, Micro(db, p, c).1)
  {
    MicroProgresses(db, p, c);
  }

  lemma RefusedAlone(d: Db, p: Pass, c: Cursor)
    requires Sane(Drainer(p, c)) && c.i < |p.due| && c.at.Refused? && !c.mode.ByRelay?
    ensures Sane(Drainer(p, NextRow(c)))
    ensures Alone(d, p, c) == Alone(MarkWaiting(d, p.due[c.i], p.waitedAt[c.i], p.linkError), p, NextRow(c))
  {
    AloneStep(d, p, c);
    var (d1, c1) := Micro(d, p, c);
    AloneStep(d1, p, c1);
  }

  lemma AcceptedAlone(d: Db, p: Pass, c: Cursor, state: DeliveryState)
    requires Sane(Drainer(p, c)) && c.i < |p.due| && c.at == Accepted(state) && !c.mode.Holding?
    ensures var next := NextRow(if c.mode.ByRelay? then c.(sent := c.sent + 1) else c);
            && Sane(Drainer(p, next))
            && Alone(d, p, c)
               == Alone(Sent(d, p.due[c.i], state, if c.mode.ByRelay? then p.relayedAt[c.i] else p.waitedAt[c.i]), p, next)
  {
    AloneStep(d, p, c);
    var (d1, c1) := Micro(d, p, c);
    AloneStep(d1, p, c1);
  }

  lemma {:induction false} AloneWaiting(db: Db, p: Pass, from: nat, i: nat)
    requires WellFormed(p) && from <= i <= |p.due|
    ensures Alone(Waiting(db, p, from, i), p, Cursor(Holding, i, Refused, from)) == Waiting(db, p, from, |p.due|)
    decreases |p.due| - i
  {
    if i < |p.due| {
      RefusedAlone(Waiting(db, p, from, i), p, Cursor(Holding, i, Refused, from));
      AloneWaiting(db, p, from, i + 1);
    }
  }

  lemma {:induction false} AloneOnline(db: Db, p: Pass, i: nat)
    requires WellFormed(p) && i <= |p.due|
    ensures Alone(Online(db, p, i).0, p, Cursor(Direct, i, Looking, 0)) == Online(db, p, |p.due|).0
    decreases |p.due| - i
  {
    if i < |p.due| {
      var d, c := Online(db, p, i).0, Cursor(Direct, i, Looking, 0);
      AloneStep(d, p, c);
      var c1 := Micro(d, p, c).1;
      match c1.at {
        case Gone => AloneStep(d, p, c1);
        case Accepted(state) => AcceptedAlone(d, p, c1, state);
        case Refused => RefusedAlone(d, p, c1);
      }
      AloneOnline(db, p, i + 1);
    }
  }

  /** The relay's look at row `i`: it passes over it, sends it, or stops for good. */
  lemma RelayingRow(db: Db, p: Pass, i: nat)
    requires WellFormed(p) && i < |p.due| && !Relay(db, p, i).stopped && Relay(db, p, i).sent <= i
    ensures var r, next := Relay(db, p, i), Relay(db, p, i + 1);
            && next.sent <= i + 1
            && Alone(r.db, p, Cursor(ByRelay, i, Looking, r.sent))
               == if next.stopped then Alone(r.db, p, Cursor(Holding, r.sent, Refused, r.sent))
                  else Alone(next.db, p, Cursor(ByRelay, i + 1, Looking, next.sent))
  {
    var r := Relay(db, p, i);
    var c := Cursor(ByRelay, i, Looking, r.sent);
    AloneStep(r.db, p, c);
    if p.due[i].eventId in r.db.events && p.accepts[i] {
      AcceptedAlone(r.db, p, c.(at := Accepted(CloudQueued)), CloudQueued);
    }
  }

  lemma {:induction false} AloneRelaying(db: Db, p: Pass, i: nat)
    requires WellFormed(p) && i <= |p.due| && !Relay(db, p, i).stopped && Relay(db, p, i).sent <= i
    ensures var end := Relay(db, p, |p.due|);
            Alone(Relay(db, p, i).db, p, Cursor(ByRelay, i, Looking, Relay(db, p, i).sent))
            == Waiting(end.db, p, end.sent, |p.due|)
    decreases |p.due| - i
  {
    var r := Relay(db, p, i);
    if i == |p.due| {
      AloneStep(r.db, p, Cursor(ByRelay, i, Looking, r.sent));
      AloneWaiting(r.db, p, r.sent, r.sent);
    } else {
      RelayingRow(db, p, i);
      if Relay(db, p, i + 1).stopped {
        StoppedForGood(db, p, i + 1, |p.due|);
        AloneWaiting(r.db, p, r.sent, r.sent);
      } else {
        AloneRelaying(db, p, i + 1);
      }
    }
  }

  /** With no other statement in between, the statements of a pass amount to the atomic pass. */
  lemma UndisturbedPassIsAtomic(db: Db, p: Pass)
    requires WellFormed(p)
    ensures Alone(db, p, First(p)) == Drain(db, p).0
  {
    if p.online {
      AloneOnline(db, p, 0);
    } else if p.relayReady {
      AloneRelaying(db, p, 0);
    } else {
      AloneWaiting(db, p, 0, 0);
    }
  }
}
