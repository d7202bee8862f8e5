/**
 * One pass of the outbox drain: over the direct link when it is up, otherwise by the relay for as
 * long as the relay accepts, the rest being told to wait. What the links answer and what the clock
 * says are inputs of a pass.
 */
module SyncLoop {
  import opened Basics
  import opened ChatDao

  const MAX_ATTEMPTS := 12
  const BASE_BACKOFF_MS := 3_000
  const MAX_BACKOFF_MS := 300_000
  const BATCH := 20

  /** `minOf(MAX, BASE shl minOf(attempts, 10))`. */
  function Backoff(attempts: nat): int {
    Min(MAX_BACKOFF_MS, BASE_BACKOFF_MS * Pow(2, Min(attempts, 10)))
  }

  /**
   * `sends[i]`: the socket took row i. `accepts[i]`: the relay took row i. `relayedAt[i]` and
   * `waitedAt[i]`: clock readings when row i is rescheduled by the relay and by the waiting step.
   */
  datatype Pass = Pass(
    queriedAt: int, due: seq<OutboxRow>, online: bool, sends: seq<bool>, relayReady: bool, accepts: seq<bool>,
    relayedAt: seq<int>, waitedAt: seq<int>, linkError: string)

  ghost predicate WellFormed(p: Pass) {
    && |p.sends| == |p.accepts| == |p.relayedAt| == |p.waitedAt| == |p.due|
    && forall i :: 0 <= i < |p.due| ==> p.due[i].attemptCount >= 0
  }

  /** The row went out: note the state and try again later unless an acknowledgement comes first. */
  function Sent(db: Db, row: OutboxRow, state: DeliveryState, at: int): Db
    requires row.attemptCount >= 0
  {
    Reschedule(SetState(db, row.eventId, state), row.eventId, row.attemptCount + 1, at + Backoff(row.attemptCount), None)
  }

  function MarkWaiting(db: Db, row: OutboxRow, at: int, error: string): Db
    requires row.attemptCount >= 0
  {
    if row.attemptCount + 1 >= MAX_ATTEMPTS then Dequeue(SetState(db, row.eventId, FailedFinal), row.eventId)
    else
      Reschedule(SetState(db, row.eventId, WaitingForPc), row.eventId, row.attemptCount + 1,
                 at + Backoff(row.attemptCount), Some(error))
  }

  function HandleOnline(db: Db, row: OutboxRow, sent: bool, at: int, error: string): Db
    requires row.attemptCount >= 0
  {
    if row.eventId !in db.events then Dequeue(db, row.eventId)
    else if sent then Sent(db, row, DirectSending, at)
    else MarkWaiting(db, row, at, error)
  }

  /** The tables after the first `n` rows of an online pass, and how many rows the socket took. */
  ghost function Online(db: Db, p: Pass, n: nat): (Db, nat)
    requires WellFormed(p) && n <= |p.due|
  {
    if n == 0 then (db, 0)
    else
      var (d, sent) := Online(db, p, n - 1);
      var row := p.due[n - 1];
      (HandleOnline(d, row, p.sends[n - 1], p.waitedAt[n - 1], p.linkError),
       if row.eventId in d.events && p.sends[n - 1] then sent + 1 else sent)
  }

  datatype Relayed = Relayed(db: Db, sent: nat, stopped: bool)

  /** The relay after looking at the first `n` rows; a refusal stops it for good. */
  ghost function Relay(db: Db, p: Pass, n: nat): Relayed
    requires WellFormed(p) && n <= |p.due|
  {
    if n == 0 then Relayed(db, 0, false)
    else
      var r := Relay(db, p, n - 1);
      var row := p.due[n - 1];
      if r.stopped || row.eventId !in r.db.events then r
      else if !p.accepts[n - 1] then r.(stopped := true)
      else Relayed(Sent(r.db, row, CloudQueued, p.relayedAt[n - 1]), r.sent + 1, false)
  }

  /** `due.drop(from).forEach { markWaiting(it) }`, up to row `n`. */
  ghost function Waiting(db: Db, p: Pass, from: nat, n: nat): Db
    requires WellFormed(p) && n <= |p.due|
  {
    if n <= from then db else MarkWaiting(Waiting(db, p, from, n - 1), p.due[n - 1], p.waitedAt[n - 1], p.linkError)
  }

  ghost function RelayedCount(db: Db, p: Pass): nat
    requires WellFormed(p)
  {
    if p.relayReady then Relay(db, p, |p.due|).sent else 0
  }

  ghost function Drain(db: Db, p: Pass): (Db, nat)
    requires WellFormed(p)
  {
    if p.online then Online(db, p, |p.due|)
    else
      var relayed := if p.relayReady then Relay(db, p, |p.due|) else Relayed(db, 0, false);
      (Waiting(relayed.db, p, relayed.sent, |p.due|), relayed.sent)
  }

  class ChatSyncLoop {
    const tables: Tables

    constructor (tables: Tables)
      ensures this.tables == tables
    {
      this.tables := tables;
    }

    method MarkRowWaiting(row: OutboxRow, at: int, error: string)
      requires row.attemptCount >= 0
      modifies tables
      ensures tables.Value() == MarkWaiting(old(tables.Value()), row, at, error)
    {
      var attempts := row.attemptCount + 1;
      if attempts >= MAX_ATTEMPTS {
        tables.UpdateDeliveryState(row.eventId, FailedFinal);
        tables.DequeueRow(row.eventId);
        return;
      }
      tables.UpdateDeliveryState(row.eventId, WaitingForPc);
      tables.RescheduleOutbox(row.eventId, attempts, at + Backoff(row.attemptCount), Some(error));
    }

    method RelayPending(p: Pass) returns (sent: nat)
      requires WellFormed(p)
      modifies tables
      ensures sent == RelayedCount(old(tables.Value()), p) <= |p.due|
      ensures tables.Value() == if p.relayReady then Relay(old(tables.Value()), p, |p.due|).db else old(tables.Value())
    {
      if !p.relayReady { return 0; }
      ghost var was := tables.Value();
      sent := 0;
      var i := 0;
      while i < |p.due|
        invariant 0 <= i <= |p.due| && sent <= i
        invariant Relay(was, p, i) == Relayed(tables.Value(), sent, false)
      {
        var row := p.due[i];
        var event := tables.FindEvent(row.eventId);
        i := i + 1;
        if event.None? { continue; }
        if !p.accepts[i - 1] {
          StoppedForGood(was, p, i, |p.due|);
          break;
        }
        tables.UpdateDeliveryState(row.eventId, CloudQueued);
        tables.RescheduleOutbox(row.eventId, row.attemptCount + 1, p.relayedAt[i - 1] + Backoff(row.attemptCount), None);
        sent := sent + 1;
      }
    }

    /** Returns the number of rows really handed to a link. */
    method DrainOnce(p: Pass) returns (sent: nat)
      requires WellFormed(p)
      modifies tables
      ensures (tables.Value(), sent) == Drain(old(tables.Value()), p)
    {
      ghost var was := tables.Value();
      if p.due == [] { return 0; }
      if !p.online {
        sent := RelayPending(p);
        ghost var relayed := tables.Value();
        for i := sent to |p.due|
          invariant tables.Value() == Waiting(relayed, p, sent, i)
        {
          MarkRowWaiting(p.due[i], p.waitedAt[i], p.linkError);
        }
        return;
      }
      sent := 0;
      for i := 0 to |p.due|
        invariant (tables.Value(), sent) == Online(was, p, i)
      {
        var row := p.due[i];
        var event := tables.FindEvent(row.eventId);
        if event.None? {
          tables.DequeueRow(row.eventId);
        } else if p.sends[i] {
          tables.UpdateDeliveryState(row.eventId, DirectSending);
          tables.RescheduleOutbox(row.eventId, row.attemptCount + 1, p.waitedAt[i] + Backoff(row.attemptCount), None);
          sent := sent + 1;
        } else {
          MarkRowWaiting(row, p.waitedAt[i], p.linkError);
        }
      }
    }
  }

  lemma {:induction false} StoppedForGood(db: Db, p: Pass, from: nat, n: nat)
    requires WellFormed(p) && from <= n <= |p.due| && Relay(db, p, from).stopped
    ensures Relay(db, p, n) == Relay(db, p, from)
  {
    if from < n {
      StoppedForGood(db, p, from, n - 1);
    }
  }

  // ---------------------------------------------------------------- backoff

  /** Total delay imposed after the first `n` attempts. */
  function BackoffSum(n: nat): int { if n == 0 then 0 else BackoffSum(n - 1) + Backoff(n - 1) }

  lemma {:induction false} PowMonotone(a: nat, b: nat)
    requires a <= b
    ensures 1 <= Pow(2, a) <= Pow(2, b)
  {
    if a < b {
      PowMonotone(a, b - 1);
    } else if a > 0 {
      PowMonotone(a - 1, a - 1);
    }
  }

  /** Delays never shrink, stay between three seconds and five minutes, and cannot overflow a Long. */
  lemma BackoffIsMonotone(a: nat, b: nat)
    requires a <= b
    ensures 3_000 <= Backoff(a) <= Backoff(b) <= 300_000
    ensures BASE_BACKOFF_MS * Pow(2, Min(b, 10)) <= 3_072_000
  {
    PowMonotone(0, Min(a, 10));
    PowMonotone(Min(a, 10), Min(b, 10));
    PowMonotone(Min(b, 10), 10);
    assert Pow(2, 10) == 1024;
  }

  /** Three seconds at first, then twice as long each time, up to five minutes. */
  lemma BackoffDoubles(attempts: nat)
    ensures Backoff(0) == 3_000
    ensures Backoff(attempts + 1) == Min(2 * Backoff(attempts), 300_000)
  {
    assert Pow(2, 10) == 1024;
    if attempts < 10 {
      assert Pow(2, attempts + 1) == 2 * Pow(2, attempts);
    }
  }

  /** Eleven delays separate a first attempt from a twelfth: 26 minutes and 21 seconds. */
  lemma ElevenBackoffs()
    ensures BackoffSum(11) == 1_581_000
  {
    assert Backoff(0) == 3_000 && Backoff(1) == 6_000 && Backoff(2) == 12_000 && Backoff(3) == 24_000;
    assert Backoff(4) == 48_000 && Backoff(5) == 96_000 && Backoff(6) == 192_000 && Backoff(7) == 300_000;
    assert Backoff(8) == 300_000 && Backoff(9) == 300_000 && Backoff(10) == 300_000;
    assert BackoffSum(6) == 189_000;
  }

  // ---------------------------------------------------------------- which rows an offline pass handles

  ghost predicate Present(db: Db, p: Pass, i: nat)
    requires i < |p.due|
  {
    p.due[i].eventId in db.events
  }

  /** Where the relay stops: the first present row it refuses, looking at the first `n`. */
  ghost function StopAt(db: Db, p: Pass, n: nat): nat
    requires WellFormed(p) && n <= |p.due|
    ensures StopAt(db, p, n) <= n
  {
    if n == 0 then 0
    else
      var s := StopAt(db, p, n - 1);
      if s < n - 1 || (Present(db, p, n - 1) && !p.accepts[n - 1]) then s else n
  }

  ghost predicate RelayedRow(db: Db, p: Pass, i: nat)
    requires WellFormed(p) && i < |p.due|
  {
    p.relayReady && i < StopAt(db, p, |p.due|) && Present(db, p, i)
  }

  ghost predicate WaitingRow(db: Db, p: Pass, i: nat)
    requires WellFormed(p) && i < |p.due|
  {
    i >= RelayedCount(db, p)
  }

  ghost function PresentCount(db: Db, p: Pass, n: nat): nat
    requires n <= |p.due|
    ensures PresentCount(db, p, n) <= n
  {
    if n == 0 then 0 else PresentCount(db, p, n - 1) + (if Present(db, p, n - 1) then 1 else 0)
  }

  /** Handling rows never creates or removes events. */
  lemma {:induction false} RelayKeepsEvents(db: Db, p: Pass, n: nat)
    requires WellFormed(p) && n <= |p.due|
    ensures Relay(db, p, n).db.events.Keys == db.events.Keys
  {
    if n > 0 {
      RelayKeepsEvents(db, p, n - 1);
    }
  }

  lemma {:induction false} RelayCounts(db: Db, p: Pass, n: nat)
    requires WellFormed(p) && n <= |p.due|
    ensures Relay(db, p, n).sent == PresentCount(db, p, StopAt(db, p, n))
    ensures Relay(db, p, n).stopped <==> StopAt(db, p, n) < n
  {
    if n > 0 {
      RelayCounts(db, p, n - 1);
      RelayKeepsEvents(db, p, n - 1);
    }
  }

  lemma {:induction false} PresentCountIsFull(db: Db, p: Pass, m: nat, n: nat)
    requires m <= n <= |p.due|
    ensures PresentCount(db, p, m) <= PresentCount(db, p, n)
    ensures (forall i :: 0 <= i < m ==> Present(db, p, i)) ==> PresentCount(db, p, m) == m
    ensures PresentCount(db, p, m) == PresentCount(db, p, n) ==> forall i :: m <= i < n ==> !Present(db, p, i)
  {
    if m < n {
      PresentCountIsFull(db, p, m, n - 1);
    } else if m > 0 {
      PresentCountIsFull(db, p, m - 1, m - 1);
    }
  }

  /** Each due row is either relayed or told to wait, and none is both. */
  ghost predicate Aligned(db: Db, p: Pass)
    requires WellFormed(p)
  {
    forall i :: 0 <= i < |p.due| ==> (RelayedRow(db, p, i) <==> !WaitingRow(db, p, i))
  }

  lemma AlignedByCount(db: Db, p: Pass)
    requires WellFormed(p)
    ensures RelayedCount(db, p) <= |p.due|
    ensures Aligned(db, p) <==> (forall i :: 0 <= i < RelayedCount(db, p) ==> Present(db, p, i))
  {
    if !p.relayReady {
      return;
    }
    var n := |p.due|;
    var stop, sent := StopAt(db, p, n), RelayedCount(db, p);
    RelayCounts(db, p, n);
    PresentCountIsFull(db, p, stop, n);
    assert sent == PresentCount(db, p, stop) <= stop;
    if forall i :: 0 <= i < sent ==> Present(db, p, i) {
      PresentCountIsFull(db, p, sent, stop);
      forall i | 0 <= i < n ensures RelayedRow(db, p, i) <==> !WaitingRow(db, p, i) {
      }
    } else {
      var i :| 0 <= i < sent && !Present(db, p, i);
      assert !RelayedRow(db, p, i) && !WaitingRow(db, p, i);
    }
  }

  /**
   * An offline pass handles each due row exactly once (a relayed prefix, the rest waiting) if and only
   * if no relayed row comes after an orphan, that is after a due row that has lost its event.
   */
  lemma OfflineHandlesEachOnce(db: Db, p: Pass)
    requires WellFormed(p)
    ensures Aligned(db, p)
       <==> (forall i, k :: 0 <= k < i < |p.due| && RelayedRow(db, p, i) ==> Present(db, p, k))
  {
    AlignedByCount(db, p);
    if !p.relayReady {
      return;
    }
    var stop, sent := StopAt(db, p, |p.due|), RelayedCount(db, p);
    RelayCounts(db, p, |p.due|);
    if forall i :: 0 <= i < sent ==> Present(db, p, i) {
      PresentCountIsFull(db, p, sent, stop);
    } else {
      var orphan :| 0 <= orphan < sent && !Present(db, p, orphan);
      var i := PresentFrom(db, p, stop, sent);
      assert RelayedRow(db, p, i) && !Present(db, p, orphan);
    }
  }

  /** If `m` of the first `n` rows are present and one of the first `m` is not, a present row comes later. */
  lemma {:induction false} PresentFrom(db: Db, p: Pass, n: nat, m: nat) returns (i: nat)
    requires n <= |p.due| && m <= PresentCount(db, p, n)
    requires exists k :: 0 <= k < m && k < n && !Present(db, p, k)
    ensures m <= i < n && Present(db, p, i)
  {
    var k :| 0 <= k < m && k < n && !Present(db, p, k);
    CountMisses(db, p, n, k);
    if Present(db, p, n - 1) {
      i := n - 1;
    } else {
      i := PresentFrom(db, p, n - 1, m);
    }
  }

  lemma {:induction false} CountMisses(db: Db, p: Pass, n: nat, k: nat)
    requires k < n <= |p.due| && !Present(db, p, k)
    ensures PresentCount(db, p, n) < n
  {
    if k < n - 1 { CountMisses(db, p, n - 1, k); }
  }

  function AnswersOfRelay(p: Pass, ready: bool, accepts: seq<bool>): Pass { p.(relayReady := ready, accepts := accepts) }

  /** No orphan stands before a due row that still has its event. */
  ghost predicate OrphansLast(db: Db, p: Pass) {
    forall i, k :: 0 <= k < i < |p.due| && Present(db, p, i) ==> Present(db, p, k)
  }

  lemma {:induction false} WillingRelayNeverStops(db: Db, p: Pass, n: nat)
    requires WellFormed(p) && n <= |p.due| && forall i :: 0 <= i < |p.due| ==> p.accepts[i]
    ensures StopAt(db, p, n) == n
  {
    if n > 0 { WillingRelayNeverStops(db, p, n - 1); }
  }

  /**
   * What can be known before the pass: it handles each due row exactly once whatever the relay answers
   * if and only if the orphans among the due rows all come last.
   */
  lemma AlignedForEveryAnswerExactlyWhen(db: Db, p: Pass)
    requires WellFormed(p)
    ensures (forall ready, accepts :: |accepts| == |p.due| ==> Aligned(db, AnswersOfRelay(p, ready, accepts)))
       <==> OrphansLast(db, p)
  {
    if OrphansLast(db, p) {
      forall ready, accepts | |accepts| == |p.due| ensures Aligned(db, AnswersOfRelay(p, ready, accepts)) {
        var q := AnswersOfRelay(p, ready, accepts);
        OfflineHandlesEachOnce(db, q);
        forall i, k | 0 <= k < i < |q.due| && RelayedRow(db, q, i) ensures Present(db, q, k) {
          assert Present(db, p, i) && Present(db, p, k);
        }
      }
    } else {
      var i, k :| 0 <= k < i < |p.due| && Present(db, p, i) && !Present(db, p, k);
      var q := AnswersOfRelay(p, true, seq(|p.due|, _ => true));
      WillingRelayNeverStops(db, q, |q.due|);
      OfflineHandlesEachOnce(db, q);
      assert Present(db, q, i) && RelayedRow(db, q, i) && !Present(db, q, k);
    }
  }

  // ---------------------------------------------------------------- what a pass does to each row

  /** Everything the two tables say about one identifier. */
  ghost function View(db: Db, id: string): (Option<EventRow>, Option<OutboxRow>) {
    (if id in db.events then Some(db.events[id]) else None, if id in db.outbox then Some(db.outbox[id]) else None)
  }

  ghost predicate DistinctRows(p: Pass) {
    forall i, j :: 0 <= i < j < |p.due| ==> p.due[i].eventId != p.due[j].eventId
  }

  /** What handling a row makes of its own identifier depends only on what the tables said about it. */
  lemma HandlingIsLocal(d: Db, e: Db, row: OutboxRow, at: int, error: string, id: string)
    requires row.attemptCount >= 0
    ensures id != row.eventId ==>
      && View(Sent(d, row, CloudQueued, at), id) == View(d, id)
      && View(MarkWaiting(d, row, at, error), id) == View(d, id)
      && (forall sent :: View(HandleOnline(d, row, sent, at, error), id) == View(d, id))
    ensures View(d, row.eventId) == View(e, row.eventId) ==>
      && View(Sent(d, row, CloudQueued, at), row.eventId) == View(Sent(e, row, CloudQueued, at), row.eventId)
      && View(MarkWaiting(d, row, at, error), row.eventId) == View(MarkWaiting(e, row, at, error), row.eventId)
      && (forall sent :: View(HandleOnline(d, row, sent, at, error), row.eventId)
                      == View(HandleOnline(e, row, sent, at, error), row.eventId))
  {
  }

  lemma RelayStep(db: Db, p: Pass, n: nat)
    requires WellFormed(p) && 0 < n <= |p.due|
    ensures var before := Relay(db, p, n - 1).db;
            Relay(db, p, n).db == if n - 1 < StopAt(db, p, n) && Present(db, p, n - 1)
                                  then Sent(before, p.due[n - 1], CloudQueued, p.relayedAt[n - 1]) else before
    ensures StopAt(db, p, n) == StopAt(db, p, n - 1) || (StopAt(db, p, n - 1) == n - 1 && StopAt(db, p, n) == n)
  {
    RelayCounts(db, p, n - 1);
    RelayKeepsEvents(db, p, n - 1);
  }

  lemma {:induction false} RelayView(db: Db, p: Pass, n: nat, i: nat)
    requires WellFormed(p) && DistinctRows(p) && n <= |p.due| && i < |p.due|
    ensures var id := p.due[i].eventId;
            View(Relay(db, p, n).db, id)
            == if i < StopAt(db, p, n) && Present(db, p, i)
               then View(Sent(db, p.due[i], CloudQueued, p.relayedAt[i]), id) else View(db, id)
  {
    if n > 0 {
      RelayView(db, p, n - 1, i);
      RelayStep(db, p, n);
      var row, before := p.due[n - 1], Relay(db, p, n - 1).db;
      if i == n - 1 {
        HandlingIsLocal(before, db, row, p.relayedAt[i], "", "");
      } else {
        assert p.due[i].eventId != row.eventId;
        HandlingIsLocal(before, before, row, p.relayedAt[n - 1], "", p.due[i].eventId);
      }
    }
  }

  lemma {:induction false} WaitingView(db: Db, p: Pass, from: nat, n: nat, i: nat)
    requires WellFormed(p) && DistinctRows(p) && n <= |p.due| && i < |p.due|
    ensures var id := p.due[i].eventId;
            View(Waiting(db, p, from, n), id)
            == if from <= i < n then View(MarkWaiting(db, p.due[i], p.waitedAt[i], p.linkError), id) else View(db, id)
  {
    if from < n {
      WaitingView(db, p, from, n - 1, i);
      HandlingIsLocal(Waiting(db, p, from, n - 1), db, p.due[n - 1], p.waitedAt[n - 1], p.linkError, p.due[i].eventId);
      assert i < n - 1 ==> p.due[i].eventId != p.due[n - 1].eventId;
      assert n - 1 < i ==> p.due[i].eventId != p.due[n - 1].eventId;
    }
  }

  /** Waiting after a relay leaves what waiting alone would have left. */
  lemma WaitingOverwrites(db: Db, row: OutboxRow, relayedAt: int, waitedAt: int, error: string)
    requires row.attemptCount >= 0
    ensures View(MarkWaiting(Sent(db, row, CloudQueued, relayedAt), row, waitedAt, error), row.eventId)
         == View(MarkWaiting(db, row, waitedAt, error), row.eventId)
  {
  }

  /** Any offline pass, aligned or not: what it makes of each due row. */
  lemma OfflinePassView(db: Db, p: Pass, i: nat)
    requires WellFormed(p) && DistinctRows(p) && !p.online && i < |p.due|
    ensures var row, id := p.due[i], p.due[i].eventId;
            View(Drain(db, p).0, id)
            == if WaitingRow(db, p, i) then View(MarkWaiting(db, row, p.waitedAt[i], p.linkError), id)
               else if RelayedRow(db, p, i) then View(Sent(db, row, CloudQueued, p.relayedAt[i]), id)
               else View(db, id)
  {
    var sent, n, row := RelayedCount(db, p), |p.due|, p.due[i];
    var relayed := if p.relayReady then Relay(db, p, n).db else db;
    WaitingView(relayed, p, sent, n, i);
    if p.relayReady {
      RelayView(db, p, n, i);
      WaitingOverwrites(db, row, p.relayedAt[i], p.waitedAt[i], p.linkError);
      var sentDb := Sent(db, row, CloudQueued, p.relayedAt[i]);
      HandlingIsLocal(relayed, db, row, p.waitedAt[i], p.linkError, "");
      HandlingIsLocal(relayed, sentDb, row, p.waitedAt[i], p.linkError, "");
    }
  }

  lemma {:induction false} RelayIgnores(db: Db, p: Pass, n: nat, id: string)
    requires WellFormed(p) && n <= |p.due| && forall i :: 0 <= i < |p.due| ==> p.due[i].eventId != id
    ensures View(Relay(db, p, n).db, id) == View(db, id)
  {
    if n > 0 { RelayIgnores(db, p, n - 1, id); }
  }

  lemma {:induction false} WaitingIgnores(db: Db, p: Pass, from: nat, n: nat, id: string)
    requires WellFormed(p) && n <= |p.due| && forall i :: 0 <= i < |p.due| ==> p.due[i].eventId != id
    ensures View(Waiting(db, p, from, n), id) == View(db, id)
  {
    if from < n { WaitingIgnores(db, p, from, n - 1, id); }
  }

  lemma {:induction false} OnlineIgnores(db: Db, p: Pass, n: nat, id: string)
    requires WellFormed(p) && n <= |p.due| && forall i :: 0 <= i < |p.due| ==> p.due[i].eventId != id
    ensures View(Online(db, p, n).0, id) == View(db, id)
  {
    if n > 0 { OnlineIgnores(db, p, n - 1, id); }
  }

  /** A pass leaves every identifier that is not due exactly as it was. */
  lemma PassIgnoresOthers(db: Db, p: Pass, id: string)
    requires WellFormed(p) && forall i :: 0 <= i < |p.due| ==> p.due[i].eventId != id
    ensures View(Drain(db, p).0, id) == View(db, id)
  {
    var n := |p.due|;
    OnlineIgnores(db, p, n, id);
    if p.relayReady { RelayIgnores(db, p, n, id); }
    WaitingIgnores(if p.relayReady then Relay(db, p, n).db else db, p, RelayedCount(db, p), n, id);
  }

  lemma {:induction false} OnlineView(db: Db, p: Pass, n: nat, i: nat)
    requires WellFormed(p) && DistinctRows(p) && n <= |p.due| && i < |p.due|
    ensures var id := p.due[i].eventId;
            View(Online(db, p, n).0, id)
            == if i < n then View(HandleOnline(db, p.due[i], p.sends[i], p.waitedAt[i], p.linkError), id) else View(db, id)
  {
    if n > 0 {
      OnlineView(db, p, n - 1, i);
      HandlingIsLocal(Online(db, p, n - 1).0, db, p.due[n - 1], p.waitedAt[n - 1], p.linkError, p.due[i].eventId);
      assert i < n - 1 ==> p.due[i].eventId != p.due[n - 1].eventId;
      assert n - 1 < i ==> p.due[i].eventId != p.due[n - 1].eventId;
    }
  }

  /** An online pass handles every due row by itself, whatever happens to the others. */
  lemma OnlinePassView(db: Db, p: Pass, i: nat)
    requires WellFormed(p) && DistinctRows(p) && p.online && i < |p.due|
    ensures View(Drain(db, p).0, p.due[i].eventId)
         == View(HandleOnline(db, p.due[i], p.sends[i], p.waitedAt[i], p.linkError), p.due[i].eventId)
  {
    OnlineView(db, p, |p.due|, i);
  }

  // ---------------------------------------------------------------- the outcome of each due row, field by field
  /** What the tables say of the identifier afterwards: the state is noted, and this is its outbox row. */
  ghost predicate Outcome(db: Db, after: Db, id: string, state: DeliveryState, row: Option<OutboxRow>) {
    && (id in after.events <==> id in db.events)
    && (id in db.events ==> after.events[id] == db.events[id].(state := state))
    && (id in after.outbox <==> row.Some?)
    && (row.Some? ==> after.outbox[id] == row.value)
  }

  /** The same row with one more attempt, put off by the delay of the attempts made so far. */
  function Later(row: OutboxRow, at: int, error: Option<string>): OutboxRow
    requires row.attemptCount >= 0
  {
    row.(attemptCount := row.attemptCount + 1, nextAttemptAtMs := at + Backoff(row.attemptCount), lastError := error)
  }

  /** The row is told to wait; the twelfth time it fails for good and leaves the outbox. */
  ghost predicate Waits(db: Db, after: Db, row: OutboxRow, at: int, error: string)
    requires row.attemptCount >= 0
  {
    if row.attemptCount < 11 then Outcome(db, after, row.eventId, WaitingForPc, Some(Later(row, at, Some(error))))
    else Outcome(db, after, row.eventId, FailedFinal, None)
  }

  ghost predicate Queued(db: Db, row: OutboxRow) { row.eventId in db.outbox && db.outbox[row.eventId] == row }

  /**
   * An online pass, row by row: a row without its event is dropped, a row that the socket takes is
   * sending and will be tried again later, a refused one waits or, the twelfth time, fails.
   */
  lemma OnlinePassOutcome(db: Db, p: Pass, i: nat)
    requires WellFormed(p) && DistinctRows(p) && p.online && i < |p.due| && Queued(db, p.due[i])
    ensures var row, after := p.due[i], Drain(db, p).0;
            if row.eventId !in db.events then row.eventId !in after.events && row.eventId !in after.outbox
            else if p.sends[i] then
              Outcome(db, after, row.eventId, DirectSending, Some(Later(row, p.waitedAt[i], None)))
            else Waits(db, after, row, p.waitedAt[i], p.linkError)
  {
    OnlinePassView(db, p, i);
    var row, at := p.due[i], p.waitedAt[i];
    ViewGivesOutcome(db, Drain(db, p).0, HandleOnline(db, row, p.sends[i], at, p.linkError), row.eventId);
  }

  /** Outcomes only look at the view of the identifier. */
  lemma ViewGivesOutcome(db: Db, a: Db, b: Db, id: string)
    requires View(a, id) == View(b, id)
    ensures id in a.events <==> id in b.events
    ensures id in a.outbox <==> id in b.outbox
    ensures forall state, row :: Outcome(db, a, id, state, row) <==> Outcome(db, b, id, state, row)
  {
  }

  /** An offline pass, row by row, aligned or not. */
  lemma OfflinePassOutcome(db: Db, p: Pass, i: nat)
    requires WellFormed(p) && DistinctRows(p) && !p.online && i < |p.due| && Queued(db, p.due[i])
    ensures var row, after := p.due[i], Drain(db, p).0;
            if WaitingRow(db, p, i) then Waits(db, after, row, p.waitedAt[i], p.linkError)
            else if RelayedRow(db, p, i) then
              Outcome(db, after, row.eventId, CloudQueued, Some(Later(row, p.relayedAt[i], None)))
            else View(after, row.eventId) == View(db, row.eventId)
  {
    OfflinePassView(db, p, i);
    var row, after := p.due[i], Drain(db, p).0;
    if WaitingRow(db, p, i) {
      ViewGivesOutcome(db, after, MarkWaiting(db, row, p.waitedAt[i], p.linkError), row.eventId);
    } else if RelayedRow(db, p, i) {
      ViewGivesOutcome(db, after, Sent(db, row, CloudQueued, p.relayedAt[i]), row.eventId);
    }
  }

  /**
   * An offline pass with no orphan before a relayed row: the relayed rows are rescheduled, every other
   * row is told to wait or, on its twelfth attempt, fails for good; each exactly once.
   */
  lemma AlignedOfflinePass(db: Db, p: Pass, i: nat)
    requires WellFormed(p) && DistinctRows(p) && !p.online && i < |p.due| && Queued(db, p.due[i])
    requires forall k, j :: 0 <= k < j < |p.due| && RelayedRow(db, p, j) ==> Present(db, p, k)
    ensures var row, after := p.due[i], Drain(db, p).0;
            if RelayedRow(db, p, i) then
              Outcome(db, after, row.eventId, CloudQueued, Some(Later(row, p.relayedAt[i], None)))
            else Waits(db, after, row, p.waitedAt[i], p.linkError)
  {
    OfflinePassOutcome(db, p, i);
    OfflineHandlesEachOnce(db, p);
    assert RelayedRow(db, p, i) <==> !WaitingRow(db, p, i);
  }

  // ---------------------------------------------------------------- the number that a pass returns
  /** The rows among the first `n` whose event exists and which the socket took. */
  ghost function TakenRows(db: Db, p: Pass, n: nat): set<int>
    requires WellFormed(p) && n <= |p.due|
  {
    set i | 0 <= i < n && p.due[i].eventId in db.events && p.sends[i]
  }

  /** The rows among the first `n` whose event exists, up to the first of these that the relay refuses. */
  ghost function DepositedRows(db: Db, p: Pass, n: nat): set<int>
    requires WellFormed(p) && n <= |p.due|
  {
    set i | 0 <= i < n && p.due[i].eventId in db.events
            && forall j :: 0 <= j <= i && p.due[j].eventId in db.events ==> p.accepts[j]
  }

  lemma {:induction false} OnlineKeepsEvents(db: Db, p: Pass, n: nat)
    requires WellFormed(p) && n <= |p.due|
    ensures Online(db, p, n).0.events.Keys == db.events.Keys
  {
    if n > 0 { OnlineKeepsEvents(db, p, n - 1); }
  }

  lemma TakenRowsGrow(db: Db, p: Pass, n: nat)
    requires WellFormed(p) && 0 < n <= |p.due|
    ensures |TakenRows(db, p, n)|
         == |TakenRows(db, p, n - 1)| + if p.due[n - 1].eventId in db.events && p.sends[n - 1] then 1 else 0
  {
    var fewer := TakenRows(db, p, n - 1);
    assert TakenRows(db, p, n)
        == if p.due[n - 1].eventId in db.events && p.sends[n - 1] then fewer + {n - 1} else fewer;
  }

  lemma {:induction false} OnlineCounts(db: Db, p: Pass, n: nat)
    requires WellFormed(p) && n <= |p.due|
    ensures Online(db, p, n).1 == |TakenRows(db, p, n)|
  {
    if n > 0 {
      OnlineCounts(db, p, n - 1);
      OnlineKeepsEvents(db, p, n - 1);
      TakenRowsGrow(db, p, n);
    }
  }

  lemma {:induction false} StopsAtFirstRefusal(db: Db, p: Pass, n: nat, i: nat)
    requires WellFormed(p) && i < n <= |p.due|
    ensures i < StopAt(db, p, n) <==> forall j :: 0 <= j <= i && Present(db, p, j) ==> p.accepts[j]
  {
    if i < n - 1 {
      StopsAtFirstRefusal(db, p, n - 1, i);
    } else if i > 0 {
      StopsAtFirstRefusal(db, p, i, i - 1);
    }
  }

  ghost function PresentRows(db: Db, p: Pass, n: nat): set<int>
    requires n <= |p.due|
  {
    set i | 0 <= i < n && Present(db, p, i)
  }

  lemma {:induction false} PresentCountIsSize(db: Db, p: Pass, n: nat)
    requires n <= |p.due|
    ensures PresentCount(db, p, n) == |PresentRows(db, p, n)|
  {
    if n > 0 {
      PresentCountIsSize(db, p, n - 1);
      var fewer := PresentRows(db, p, n - 1);
      assert PresentRows(db, p, n) == if Present(db, p, n - 1) then fewer + {n - 1} else fewer;
    }
  }

  lemma RelayDeposits(db: Db, p: Pass)
    requires WellFormed(p)
    ensures Relay(db, p, |p.due|).sent == |DepositedRows(db, p, |p.due|)|
  {
    var n := |p.due|;
    var stop := StopAt(db, p, n);
    RelayCounts(db, p, n);
    PresentCountIsSize(db, p, stop);
    var before, deposited := PresentRows(db, p, stop), DepositedRows(db, p, n);
    forall i | 0 <= i < n ensures i in deposited <==> i in before {
      StopsAtFirstRefusal(db, p, n, i);
      assert forall j :: 0 <= j <= i ==> (Present(db, p, j) <==> p.due[j].eventId in db.events);
    }
    assert deposited == before;
  }

  /**
   * What a pass returns is the number of messages really handed to a link, told from the tables before
   * it: online, the present rows that the socket took; offline, the present rows before the first that
   * the relay refused, or none when the relay is not ready.
   */
  lemma PassReturnsHandedOver(db: Db, p: Pass)
    requires WellFormed(p)
    ensures Drain(db, p).1 == if p.online then |TakenRows(db, p, |p.due|)|
                              else if p.relayReady then |DepositedRows(db, p, |p.due|)| else 0
  {
    OnlineCounts(db, p, |p.due|);
    RelayDeposits(db, p);
  }

  /** An orphan ahead of a relayed message: the message that just left is marked as finally failed. */
  lemma OrphanMisalignsPass(event: EventRow)
    requires event.eventId == "b" && !event.fromAssistant
    ensures var a := OutboxRow("a", "t", 1, 0, 0, None);
            var b := OutboxRow("b", "t", 2, 11, 0, None);
            var db := Db(map["b" := event], map["a" := a, "b" := b]);
            var p := Pass(5, [a, b], false, [false, false], true, [true, true], [5, 5], [5, 5], "PC injoignable");
            && DueRows(db, p.due, 5, BATCH)
            && WellFormed(p)
            && RelayedRow(db, p, 1) && WaitingRow(db, p, 1) && !RelayedRow(db, p, 0) && !WaitingRow(db, p, 0)
            && "b" in Drain(db, p).0.events && Drain(db, p).0.events["b"].state == FailedFinal
            && "b" !in Drain(db, p).0.outbox && "a" in Drain(db, p).0.outbox
  {
    var a := OutboxRow("a", "t", 1, 0, 0, None);
    var b := OutboxRow("b", "t", 2, 11, 0, None);
    var db := Db(map["b" := event], map["a" := a, "b" := b]);
    var p := Pass(5, [a, b], false, [false, false], true, [true, true], [5, 5], [5, 5], "PC injoignable");
    assert p.due[0] == a && p.due[1] == b && "a" != "b";
    assert forall row :: IsDue(db, row, 5) ==> row == a || row == b;
    assert !Present(db, p, 0) && Present(db, p, 1);
    assert StopAt(db, p, 0) == 0 && StopAt(db, p, 1) == 1 && StopAt(db, p, 2) == 2;
    var r1, r2 := Relay(db, p, 1), Relay(db, p, 2);
    assert Relay(db, p, 0) == Relayed(db, 0, false);
    assert r1 == Relayed(db, 0, false);
    assert r2.sent == 1 && r2.db.outbox["a"] == a;
    assert Waiting(r2.db, p, 1, 1) == r2.db;
    assert Waiting(r2.db, p, 1, 2) == MarkWaiting(r2.db, b, 5, "PC injoignable");
  }
}
