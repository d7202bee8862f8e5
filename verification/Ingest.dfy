/**
 * Receiving events at least once: the event table ignores an identifier it already holds, and only a
 * row that was really inserted feeds the progressive answer. Decryption is ideal, so a delivery
 * carries the answer frame (if any) that opening it yields.
 */
module Ingest {
  import opened Basics
  import RA = ResponseAssembler

  datatype RowState = ResponseStreaming | Complete

  datatype Row = Row(content: string, state: RowState, fromAssistant: bool)

  /** `isResponse` holds for any payload of an answer type, even one whose frame does not decode. */
  datatype Delivery = Delivery(
    eventId: string, content: string, fromAssistant: bool, isResponse: bool, frame: Option<RA.Frame>)

  datatype Inbox = Inbox(events: map<string, Row>, answers: RA.State)

  /** The frame that ingesting the delivery decodes: nothing is decoded for the user's own events. */
  function FrameOf(d: Delivery): Option<RA.Frame> {
    if d.fromAssistant && d.isResponse then d.frame else None
  }

  function RowOf(d: Delivery): Row {
    var isAnswer := d.fromAssistant && d.isResponse;
    var finished := FrameOf(d).Some? && FrameOf(d).value.kind.Completed?;
    Row(d.content, if isAnswer && !finished then ResponseStreaming else Complete, d.fromAssistant)
  }

  function Receive(box: Inbox, d: Delivery): Inbox {
    if d.eventId in box.events then box
    else
      Inbox(box.events[d.eventId := RowOf(d)],
            if FrameOf(d).Some? then RA.Accept(box.answers, FrameOf(d).value).0 else box.answers)
  }

  class Repository {
    var events: map<string, Row>
    const assembler: RA.Assembler

    ghost function Value(): Inbox
      reads this, assembler
    {
      Inbox(events, assembler.Value())
    }

    constructor ()
      ensures Value() == Inbox(map[], RA.EMPTY) && fresh(assembler)
    {
      events := map[];
      assembler := new RA.Assembler();
    }

    /** Insert-or-ignore: false when the identifier was already there. */
    method InsertEvent(eventId: string, row: Row) returns (inserted: bool)
      modifies this
      ensures inserted <==> eventId !in old(events)
      ensures events == if inserted then old(events)[eventId := row] else old(events)
    {
      inserted := eventId !in events;
      if inserted { events := events[eventId := row]; }
    }

    method Ingest(d: Delivery) returns (response: Option<RA.Frame>)
      modifies this, assembler
      ensures Value() == Receive(old(Value()), d)
      ensures response == FrameOf(d)
    {
      response := FrameOf(d);
      var inserted := InsertEvent(d.eventId, RowOf(d));
      if inserted && response.Some? {
        var snapshot := assembler.AcceptFrame(response.value);
      }
    }
  }

  // ---------------------------------------------------------------- exactly once

  function ReceiveAll(box: Inbox, ds: seq<Delivery>): Inbox {
    if ds == [] then box else Receive(ReceiveAll(box, ds[..|ds| - 1]), ds[|ds| - 1])
  }

  /** The first delivery of each identifier, in order of arrival. */
  function FirstCopies(ds: seq<Delivery>): seq<Delivery> {
    if ds == [] then []
    else
      var init, last := ds[..|ds| - 1], ds[|ds| - 1];
      FirstCopies(init) + (if Delivered(init, last.eventId) then [] else [last])
  }

  predicate Delivered(ds: seq<Delivery>, eventId: string) {
    exists i :: 0 <= i < |ds| && ds[i].eventId == eventId
  }

  lemma {:induction false} TableKeys(box: Inbox, ds: seq<Delivery>, id: string)
    ensures id in ReceiveAll(box, ds).events <==> id in box.events || Delivered(ds, id)
  {
    if ds != [] {
      var init, last := ds[..|ds| - 1], ds[|ds| - 1];
      TableKeys(box, init, id);
      if Delivered(init, id) {
        var i :| 0 <= i < |init| && init[i].eventId == id;
        assert ds[i].eventId == id;
      }
      if Delivered(ds, id) && last.eventId != id {
        var i :| 0 <= i < |ds| && ds[i].eventId == id;
        assert init[i].eventId == id;
      }
    }
  }

  /**
   * At-least-once delivery is exactly-once: whatever is repeated, and whatever the later copies carry,
   * the table and the progressive answers are those of the first copies alone.
   */
  lemma {:induction false} RepeatsChangeNothing(box: Inbox, ds: seq<Delivery>)
    ensures ReceiveAll(box, ds) == ReceiveAll(box, FirstCopies(ds))
  {
    if ds != [] {
      var init, last := ds[..|ds| - 1], ds[|ds| - 1];
      RepeatsChangeNothing(box, init);
      if Delivered(init, last.eventId) {
        TableKeys(box, init, last.eventId);
        assert FirstCopies(ds) == FirstCopies(init) + [];
        assert FirstCopies(init) + [] == FirstCopies(init);
      } else {
        var firsts := FirstCopies(init) + [last];
        assert firsts[..|firsts| - 1] == FirstCopies(init);
      }
    }
  }

  /** The frames that reach the assembler: those of inserted events, in order. */
  function InsertedFrames(box: Inbox, ds: seq<Delivery>): seq<RA.Frame> {
    if ds == [] then []
    else
      var init, last := ds[..|ds| - 1], ds[|ds| - 1];
      InsertedFrames(box, init)
      + (if last.eventId !in ReceiveAll(box, init).events && FrameOf(last).Some? then [FrameOf(last).value] else [])
  }

  lemma {:induction false} AnswersAreFed(box: Inbox, ds: seq<Delivery>)
    ensures ReceiveAll(box, ds).answers == RA.Feed(box.answers, InsertedFrames(box, ds))
  {
    if ds != [] {
      var init, last := ds[..|ds| - 1], ds[|ds| - 1];
      AnswersAreFed(box, init);
      if last.eventId !in ReceiveAll(box, init).events && FrameOf(last).Some? {
        var frames := InsertedFrames(box, init) + [FrameOf(last).value];
        assert frames[..|frames| - 1] == InsertedFrames(box, init);
      } else {
        assert InsertedFrames(box, init) + [] == InsertedFrames(box, init);
      }
    }
  }

  lemma {:induction false} InsertedFramesAreDelivered(box: Inbox, ds: seq<Delivery>)
    ensures forall f :: f in InsertedFrames(box, ds) ==> exists i :: 0 <= i < |ds| && FrameOf(ds[i]) == Some(f)
  {
    if ds != [] {
      var init := ds[..|ds| - 1];
      InsertedFramesAreDelivered(box, init);
      forall f | f in InsertedFrames(box, ds) ensures exists i :: 0 <= i < |ds| && FrameOf(ds[i]) == Some(f) {
        if f in InsertedFrames(box, init) {
          var i :| 0 <= i < |init| && FrameOf(init[i]) == Some(f);
          assert FrameOf(ds[i]) == Some(f);
        } else {
          assert FrameOf(ds[|ds| - 1]) == Some(f);
        }
      }
    }
  }

  ghost predicate CopiesAgree(ds: seq<Delivery>) {
    forall i, j :: 0 <= i < |ds| && 0 <= j < |ds| && ds[i].eventId == ds[j].eventId ==> ds[i] == ds[j]
  }

  lemma {:induction false} DeliveredFrameIsInserted(box: Inbox, ds: seq<Delivery>, i: nat)
    requires i < |ds| && CopiesAgree(ds) && ds[i].eventId !in box.events && FrameOf(ds[i]).Some?
    ensures FrameOf(ds[i]).value in InsertedFrames(box, ds)
  {
    var init, last := ds[..|ds| - 1], ds[|ds| - 1];
    assert forall a :: 0 <= a < |init| ==> init[a] == ds[a];
    assert CopiesAgree(init);
    if i < |init| {
      DeliveredFrameIsInserted(box, init, i);
    } else {
      TableKeys(box, init, last.eventId);
      if Delivered(init, last.eventId) {
        var j :| 0 <= j < |init| && init[j].eventId == last.eventId;
        assert ds[j] == ds[i];
        DeliveredFrameIsInserted(box, init, j);
      }
    }
  }

  ghost predicate Carries(d: Delivery, id: string, source: string, texts: seq<string>, k: int) {
    FrameOf(d).Some? && RA.IsOwnChunk(FrameOf(d).value, id, source, texts) && FrameOf(d).value.sequence == k
  }

  /** Chunk `k` arrives in some event that the table does not hold yet. */
  ghost predicate Arrives(box: Inbox, ds: seq<Delivery>, id: string, source: string, texts: seq<string>, k: int) {
    exists i :: 0 <= i < |ds| && Carries(ds[i], id, source, texts, k) && ds[i].eventId !in box.events
  }

  lemma ArrivingChunkIsGot(box: Inbox, ds: seq<Delivery>, id: string, source: string, texts: seq<string>, k: int)
    requires CopiesAgree(ds) && Arrives(box, ds, id, source, texts, k)
    ensures k in RA.Got(InsertedFrames(box, ds), id, source, texts)
  {
    var frames := InsertedFrames(box, ds);
    var i :| 0 <= i < |ds| && Carries(ds[i], id, source, texts, k) && ds[i].eventId !in box.events;
    DeliveredFrameIsInserted(box, ds, i);
    var j :| 0 <= j < |frames| && frames[j] == FrameOf(ds[i]).value;
    assert RA.IsOwnChunk(frames[j], id, source, texts) && frames[j].sequence == k;
  }

  /**
   * End to end: once a response has started, events that arrive in any order and any number of times
   * leave exactly the whole text, provided each chunk arrives at all in an event not seen before.
   */
  lemma AnswerSurvivesRedelivery(box: Inbox, ds: seq<Delivery>, id: string, source: string, texts: seq<string>)
    requires RA.InProgress(box.answers, id, source, texts, {}) && RA.WithinBudget(texts)
    requires CopiesAgree(ds)
    requires forall i :: 0 <= i < |ds| && FrameOf(ds[i]).Some? ==> RA.Harmless(FrameOf(ds[i]).value, id, source, texts)
    requires forall k :: 1 <= k <= |texts| ==> Arrives(box, ds, id, source, texts, k)
    ensures var answers := ReceiveAll(box, ds).answers;
            id in answers.active && answers.active[id].text == RA.Prefix(texts, |texts|)
  {
    var frames := InsertedFrames(box, ds);
    forall k | 1 <= k <= |texts| ensures k in RA.Got(frames, id, source, texts) {
      ArrivingChunkIsGot(box, ds, id, source, texts, k);
    }
    InsertedFramesAreDelivered(box, ds);
    RA.ReassemblyIsOrderIndependent(box.answers, frames, id, source, texts);
    AnswersAreFed(box, ds);
  }

  // ---------------------------------------------------------------- the row of an event
  /** Shown as streaming as long as it is part of an answer that has not been completed. */
  ghost predicate IsRowOf(row: Row, d: Delivery) {
    && row.content == d.content && row.fromAssistant == d.fromAssistant
    && (row.state.ResponseStreaming? <==>
          d.fromAssistant && d.isResponse && !(d.frame.Some? && d.frame.value.kind.Completed?))
  }

  lemma {:induction false} HeldRowStays(box: Inbox, ds: seq<Delivery>, id: string)
    requires id in box.events
    ensures id in ReceiveAll(box, ds).events && ReceiveAll(box, ds).events[id] == box.events[id]
  {
    if ds != [] { HeldRowStays(box, ds[..|ds| - 1], id); }
  }

  /** The row of an event is that of its first delivery, in every later moment. */
  lemma {:induction false} FirstDeliveryStays(box: Inbox, ds: seq<Delivery>, i: nat)
    requires i < |ds| && ds[i].eventId !in box.events && !Delivered(ds[..i], ds[i].eventId)
    ensures var table := ReceiveAll(box, ds).events;
            ds[i].eventId in table && IsRowOf(table[ds[i].eventId], ds[i])
  {
    var init := ds[..|ds| - 1];
    if i < |init| {
      assert init[..i] == ds[..i] && init[i] == ds[i];
      FirstDeliveryStays(box, init, i);
    } else {
      TableKeys(box, init, ds[i].eventId);
    }
  }

  /** What a delivery feeds to the answers: the frame of a new answer event of the assistant, nothing else. */
  lemma OnlyNewAnswersAreFed(box: Inbox, d: Delivery)
    ensures Receive(box, d).answers
         == if d.eventId !in box.events && d.fromAssistant && d.isResponse && d.frame.Some?
            then RA.Accept(box.answers, d.frame.value).0 else box.answers
  {
  }
}
