/**
 * Standard MIDI File bytes: variable-length quantities and channel and meta messages, as a writer
 * prints them and as a reader following the Standard MIDI Files 1.0 conventions takes them apart.
 */
module Midi {
  import opened Basics

  /** The largest quantity that the four bytes a reader accepts can hold. */
  const MAX_VLQ := 0x0FFF_FFFF

  // ---------------------------------------------------------------- variable-length quantities

  function VlqHead(high: nat): seq<Byte> {
    if high == 0 then [] else VlqHead(high / 128) + [128 + high % 128]
  }

  /** Seven bits a byte, most significant first, the top bit set on all bytes but the last. */
  function VlqBytes(value: nat): seq<Byte> { VlqHead(value / 128) + [value % 128] }

  method Vlq(value: int) returns (r: Result<seq<Byte>>)
    ensures value < 0 ==> r == Err("MIDI delta time cannot be negative")
    ensures value >= 0 ==> r == Ok(VlqBytes(value))
  {
    if value < 0 { return Err("MIDI delta time cannot be negative"); }
    var rest := value;
    var output: seq<Byte> := [rest % 128];
    while rest / 128 != 0
      invariant rest >= 0
      invariant VlqBytes(value) == VlqHead(rest / 128) + output
    {
      rest := rest / 128;
      ghost var before := output;
      output := [rest % 128 + 128] + output;
      assert VlqHead(rest) + before == VlqHead(rest / 128) + [128 + rest % 128] + before;
    }
    assert VlqHead(rest / 128) + output == output;
    return Ok(output);
  }

  /** Reads at most `left` bytes. */
  function ReadVlq(bytes: seq<Byte>, left: nat, acc: nat): (r: Option<(nat, seq<Byte>)>)
    ensures r.Some? ==> |r.value.1| < |bytes|
    decreases |bytes|
  {
    if left == 0 || bytes == [] then None
    else
      var value := acc * 128 + bytes[0] % 128;
      if bytes[0] >= 128 then ReadVlq(bytes[1..], left - 1, value) else Some((value, bytes[1..]))
  }

  lemma {:induction false} ReadHead(high: nat, left: nat, rest: seq<Byte>)
    ensures ReadVlq(VlqHead(high) + rest, left, 0)
         == if |VlqHead(high)| <= left then ReadVlq(rest, left - |VlqHead(high)|, high) else None
  {
    if high > 0 {
      var last: seq<Byte> := [128 + high % 128];
      ReadHead(high / 128, left, last + rest);
      assert VlqHead(high / 128) + (last + rest) == VlqHead(high) + rest;
      assert (last + rest)[1..] == rest;
    } else {
      assert VlqHead(high) + rest == rest;
    }
  }

  lemma {:induction false} HeadLength(high: nat, n: nat)
    ensures |VlqHead(high)| <= n <==> high < Pow(128, n)
  {
    if high > 0 && n > 0 {
      HeadLength(high / 128, n - 1);
    }
  }

  /** A quantity reads back exactly when it is at most 0x0FFFFFFF; a larger one cannot be read at all. */
  lemma VlqReadsBack(value: nat, rest: seq<Byte>)
    ensures ReadVlq(VlqBytes(value) + rest, 4, 0) == if value <= MAX_VLQ then Some((value, rest)) else None
    ensures |VlqBytes(value)| <= 4 <==> value <= MAX_VLQ
  {
    var last: seq<Byte> := [value % 128];
    ReadHead(value / 128, 4, last + rest);
    assert VlqHead(value / 128) + (last + rest) == VlqBytes(value) + rest;
    HeadLength(value / 128, 3);
    assert Pow(128, 3) == 128 * 128 * 128;
    assert (last + rest)[0] == value % 128 && (last + rest)[1..] == rest;
  }

  // ---------------------------------------------------------------- messages

  datatype Message =
    | Meta(kind: Byte, data: seq<Byte>)
    | Short(status: Byte, first: Byte)
    | Voice(status: Byte, first: Byte, second: Byte)

  const END_OF_TRACK := Meta(0x2F, [])

  predicate TakesOne(status: Byte) { 0xC0 <= status <= 0xDF }

  predicate TakesTwo(status: Byte) { 0x80 <= status <= 0xBF || 0xE0 <= status <= 0xEF }

  ghost predicate WellFormed(m: Message) {
    match m
    case Meta(kind, _) => kind < 128
    case Short(status, first) => TakesOne(status) && first < 128
    case Voice(status, first, second) => TakesTwo(status) && first < 128 && second < 128
  }

  function Printed(m: Message): seq<Byte> {
    match m
    case Meta(kind, data) => [0xFF, kind] + VlqBytes(|data|) + data
    case Short(status, first) => [status, first]
    case Voice(status, first, second) => [status, first, second]
  }

  method MetaEvent(kind: Byte, payload: seq<Byte>) returns (bytes: seq<Byte>)
    ensures bytes == Printed(Meta(kind, payload))
  {
    var length := Vlq(|payload|);
    bytes := [0xFF, kind] + length.value + payload;
  }

  function ReadMessage(bytes: seq<Byte>): (r: Option<(Message, seq<Byte>)>)
    ensures r.Some? ==> |r.value.1| < |bytes|
  {
    if |bytes| < 2 || bytes[1] >= 128 then None
    else if bytes[0] == 0xFF then
      var length := ReadVlq(bytes[2..], 4, 0);
      if length.None? || length.value.0 > |length.value.1| then None
      else Some((Meta(bytes[1], length.value.1[..length.value.0]), length.value.1[length.value.0..]))
    else if TakesOne(bytes[0]) then Some((Short(bytes[0], bytes[1]), bytes[2..]))
    else if TakesTwo(bytes[0]) && |bytes| >= 3 && bytes[2] < 128 then Some((Voice(bytes[0], bytes[1], bytes[2]), bytes[3..]))
    else None
  }

  predicate Fits(m: Message) { m.Meta? ==> |m.data| <= MAX_VLQ }

  lemma MetaReadsBack(kind: Byte, data: seq<Byte>, rest: seq<Byte>)
    requires kind < 128
    ensures ReadMessage(Printed(Meta(kind, data)) + rest) == if |data| <= MAX_VLQ then Some((Meta(kind, data), rest)) else None
  {
    var bytes := Printed(Meta(kind, data)) + rest;
    VlqReadsBack(|data|, data + rest);
    assert bytes[0] == 0xFF && bytes[1] == kind && bytes[2..] == VlqBytes(|data|) + (data + rest);
    assert (data + rest)[..|data|] == data && (data + rest)[|data|..] == rest;
  }

  /** A message reads back exactly when its length can be told. */
  lemma MessageReadsBack(m: Message, rest: seq<Byte>)
    requires WellFormed(m)
    ensures ReadMessage(Printed(m) + rest) == if Fits(m) then Some((m, rest)) else None
  {
    var bytes := Printed(m) + rest;
    match m
    case Meta(kind, data) => MetaReadsBack(kind, data, rest);
    case Short(status, first) => assert bytes[2..] == rest;
    case Voice(status, first, second) => assert bytes[3..] == rest;
  }

  // ---------------------------------------------------------------- tracks

  /** Events at absolute ticks; `priority` orders those of one tick. */
  datatype Event = Event(tick: int, priority: int, message: Message)

  datatype Timed = Timed(tick: int, message: Message)

  function Times(events: seq<Event>): seq<Timed> {
    seq(|events|, i requires 0 <= i < |events| => Timed(events[i].tick, events[i].message))
  }

  predicate IsEnd(m: Message) { m.Meta? && m.kind == 0x2F && |m.data| == 0 }

  datatype Read = Read(delta: nat, message: Message, rest: seq<Byte>)

  function ReadEvent(bytes: seq<Byte>): (r: Option<Read>)
    ensures r.Some? ==> |r.value.rest| < |bytes|
  {
    var delta := ReadVlq(bytes, 4, 0);
    if delta.None? then None
    else
      var message := ReadMessage(delta.value.1);
      if message.None? then None else Some(Read(delta.value.0, message.value.0, message.value.1))
  }

  function Before(first: Timed, later: Option<seq<Timed>>): Option<seq<Timed>> {
    if later.None? then None else Some([first] + later.value)
  }

  function ReadTrack(bytes: seq<Byte>, tick: int): Option<seq<Timed>>
    decreases |bytes|
  {
    match ReadEvent(bytes)
    case None => None
    case Some(Read(delta, message, rest)) =>
      if IsEnd(message) then (if |rest| == 0 then Some([Timed(tick + delta, message)]) else None)
      else
        Before(Timed(tick + delta, message), ReadTrack(rest, tick + delta))
  }

  /** Ticks never go back from `from`, and no message is an end of track or no message at all. */
  ghost predicate Writable(events: seq<Event>, from: int) {
    events == [] || (&& from <= events[0].tick && WellFormed(events[0].message) && !IsEnd(events[0].message)
                     && Writable(events[1..], events[0].tick))
  }

  /** Each event as its distance from the one before, then its message. */
  function TrackBytes(events: seq<Event>, previous: int): seq<Byte>
    requires Writable(events, previous)
  {
    if events == [] then []
    else VlqBytes(events[0].tick - previous) + Printed(events[0].message) + TrackBytes(events[1..], events[0].tick)
  }

  function LastTick(events: seq<Event>, previous: int): int { if events == [] then previous else events[|events| - 1].tick }

  predicate AllFit(events: seq<Event>, previous: int) {
    events == [] || (&& events[0].tick - previous <= MAX_VLQ && Fits(events[0].message)
                     && AllFit(events[1..], events[0].tick))
  }

  lemma EventReadsBack(delta: nat, m: Message, rest: seq<Byte>)
    requires WellFormed(m)
    ensures ReadEvent(VlqBytes(delta) + (Printed(m) + rest))
         == if delta <= MAX_VLQ && Fits(m) then Some(Read(delta, m, rest)) else None
  {
    VlqReadsBack(delta, Printed(m) + rest);
    MessageReadsBack(m, rest);
  }

  /** One step of the reader, given what it reads first. */
  lemma ReadTrackStep(bytes: seq<Byte>, tick: int, e: Option<Read>)
    requires ReadEvent(bytes) == e && (e.Some? ==> !IsEnd(e.value.message))
    ensures ReadTrack(bytes, tick)
         == if e.None? then None
            else Before(Timed(tick + e.value.delta, e.value.message), ReadTrack(e.value.rest, tick + e.value.delta))
  {
  }

  lemma EndReads(delta: nat, tick: int)
    ensures ReadTrack(VlqBytes(delta) + Printed(END_OF_TRACK), tick)
         == if delta <= MAX_VLQ then Some([Timed(tick + delta, END_OF_TRACK)]) else None
  {
    assert Printed(END_OF_TRACK) + [] == Printed(END_OF_TRACK);
    EventReadsBack(delta, END_OF_TRACK, []);
  }

  lemma Regroup(a: seq<Byte>, b: seq<Byte>, c: seq<Byte>, d: seq<Byte>)
    ensures a + b + c + d == a + (b + (c + d))
  {
  }

  lemma TrackUnfolds(events: seq<Event>, previous: int, end: seq<Byte>)
    requires Writable(events, previous) && events != []
    ensures Writable(events[1..], events[0].tick)
    ensures TrackBytes(events, previous) + end
         == VlqBytes(events[0].tick - previous) + (Printed(events[0].message) + (TrackBytes(events[1..], events[0].tick) + end))
  {
    Regroup(VlqBytes(events[0].tick - previous), Printed(events[0].message), TrackBytes(events[1..], events[0].tick), end);
  }

  /** What the reader should find: the events at their ticks, then the end of the track. */
  function Expected(events: seq<Event>, last: int): seq<Timed> { Times(events) + [Timed(last, END_OF_TRACK)] }

  lemma ExpectedUnfolds(events: seq<Event>, last: int)
    requires events != []
    ensures [Timed(events[0].tick, events[0].message)] + Expected(events[1..], last) == Expected(events, last)
  {
    assert Times(events) == [Timed(events[0].tick, events[0].message)] + Times(events[1..]);
  }

  lemma TrackStep(events: seq<Event>, previous: int, last: int, bytes: seq<Byte>, tail: seq<Byte>)
    requires events != [] && previous <= events[0].tick && !IsEnd(events[0].message)
    requires var gap := events[0].tick - previous;
             ReadEvent(bytes)
             == if gap <= MAX_VLQ && Fits(events[0].message) then Some(Read(gap, events[0].message, tail)) else None
    requires ReadTrack(tail, events[0].tick)
          == if AllFit(events[1..], events[0].tick) then Some(Expected(events[1..], last)) else None
    ensures ReadTrack(bytes, previous) == if AllFit(events, previous) then Some(Expected(events, last)) else None
  {
    ReadTrackStep(bytes, previous, ReadEvent(bytes));
    ExpectedUnfolds(events, last);
  }

  lemma FirstEventReads(events: seq<Event>, previous: int, end: seq<Byte>)
    requires Writable(events, previous) && events != []
    ensures var gap := events[0].tick - previous;
            ReadEvent(TrackBytes(events, previous) + end)
            == if gap <= MAX_VLQ && Fits(events[0].message)
               then Some(Read(gap, events[0].message, TrackBytes(events[1..], events[0].tick) + end)) else None
  {
    TrackUnfolds(events, previous, end);
    EventReadsBack(events[0].tick - previous, events[0].message, TrackBytes(events[1..], events[0].tick) + end);
  }

  lemma {:induction false} TrackReadsUpTo(events: seq<Event>, previous: int, last: int, end: seq<Byte>)
    requires Writable(events, previous)
    requires ReadTrack(end, LastTick(events, previous)) == Some(Expected([], last))
    ensures ReadTrack(TrackBytes(events, previous) + end, previous)
         == if AllFit(events, previous) then Some(Expected(events, last)) else None
    decreases events
  {
    if events == [] {
      assert TrackBytes(events, previous) + end == end;
    } else {
      TrackReadsUpTo(events[1..], events[0].tick, last, end);
      FirstEventReads(events, previous, end);
      TrackStep(events, previous, last, TrackBytes(events, previous) + end, TrackBytes(events[1..], events[0].tick) + end);
    }
  }

  /** A written track reads back as its events at their ticks, or, if a distance is too long, not at all. */
  lemma TrackReadsBack(events: seq<Event>, previous: int, delta: nat)
    requires Writable(events, previous) && delta <= MAX_VLQ
    ensures ReadTrack(TrackBytes(events, previous) + (VlqBytes(delta) + Printed(END_OF_TRACK)), previous)
         == if AllFit(events, previous) then Some(Expected(events, LastTick(events, previous) + delta)) else None
  {
    var last := LastTick(events, previous) + delta;
    EndReads(delta, LastTick(events, previous));
    assert Expected([], last) == [Timed(last, END_OF_TRACK)];
    TrackReadsUpTo(events, previous, last, VlqBytes(delta) + Printed(END_OF_TRACK));
  }
}
