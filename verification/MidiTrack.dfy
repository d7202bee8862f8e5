/**
 * The piano track: a performance checked item by item, its events sorted in place and written, the
 * track read back, and no key released more often than it was struck. Beats have been rounded to
 * ticks, and note names to pitches.
 */
module MidiTrack {
  import opened Basics
  import opened Midi
  import Decimal

  datatype Note = Note(pitch: int, start: int, duration: int, velocity: int)

  datatype Pedal = Pedal(start: int, duration: int, value: int)

  datatype Song = Song(
    tempo: real, ticksPerBeat: int, program: int, signature: seq<int>, title: seq<Byte>, notes: seq<Note>, pedal: seq<Pedal>)

  // ---------------------------------------------------------------- stable sorting by (tick, priority)

  predicate AtMost(a: Event, b: Event) { a.tick < b.tick || (a.tick == b.tick && a.priority <= b.priority) }

  predicate SameKey(a: Event, b: Event) { a.tick == b.tick && a.priority == b.priority }

  ghost predicate Sorted(events: seq<Event>) {
    events == [] || (Sorted(events[..|events| - 1]) && forall e :: e in events ==> AtMost(e, events[|events| - 1]))
  }

  function Insert(events: seq<Event>, e: Event): seq<Event> {
    if events == [] || AtMost(events[|events| - 1], e) then events + [e]
    else Insert(events[..|events| - 1], e) + [events[|events| - 1]]
  }

  /** What `list.sort` leaves: equal keys keep their order. */
  function StableSort(events: seq<Event>): seq<Event> {
    if events == [] then [] else Insert(StableSort(events[..|events| - 1]), events[|events| - 1])
  }

  function OfKey(events: seq<Event>, key: Event): seq<Event> {
    if events == [] then []
    else
      var init, last := OfKey(events[..|events| - 1], key), events[|events| - 1];
      if SameKey(last, key) then init + [last] else init
  }

  function Count(events: seq<Event>, p: Event -> bool): nat {
    if events == [] then 0 else Count(events[..|events| - 1], p) + (if p(events[|events| - 1]) then 1 else 0)
  }

  lemma {:induction false} InsertHolds(events: seq<Event>, e: Event, x: Event)
    ensures x in Insert(events, e) <==> x in events || x == e
  {
    if events != [] && !AtMost(events[|events| - 1], e) {
      InsertHolds(events[..|events| - 1], e, x);
      assert events == events[..|events| - 1] + [events[|events| - 1]];
    }
  }

  lemma {:induction false} SortHolds(events: seq<Event>, x: Event)
    ensures x in StableSort(events) <==> x in events
  {
    if events != [] {
      SortHolds(events[..|events| - 1], x);
      InsertHolds(StableSort(events[..|events| - 1]), events[|events| - 1], x);
      assert events == events[..|events| - 1] + [events[|events| - 1]];
    }
  }

  lemma {:induction false} InsertSorts(events: seq<Event>, e: Event)
    requires Sorted(events)
    ensures Sorted(Insert(events, e))
  {
    var out := Insert(events, e);
    if events == [] || AtMost(events[|events| - 1], e) {
      assert out[..|out| - 1] == events;
    } else {
      var init, last := events[..|events| - 1], events[|events| - 1];
      InsertSorts(init, e);
      assert out[..|out| - 1] == Insert(init, e);
      forall x | x in out ensures AtMost(x, last) {
        InsertHolds(events, e, x);
      }
    }
  }

  lemma {:induction false} SortSorts(events: seq<Event>)
    ensures Sorted(StableSort(events))
  {
    if events != [] {
      SortSorts(events[..|events| - 1]);
      InsertSorts(StableSort(events[..|events| - 1]), events[|events| - 1]);
    }
  }

  lemma {:induction false} InsertCounts(events: seq<Event>, e: Event, p: Event -> bool)
    ensures Count(Insert(events, e), p) == Count(events, p) + (if p(e) then 1 else 0)
  {
    var out := Insert(events, e);
    if events == [] || AtMost(events[|events| - 1], e) {
      assert out[..|out| - 1] == events;
    } else {
      InsertCounts(events[..|events| - 1], e, p);
      assert out[..|out| - 1] == Insert(events[..|events| - 1], e);
    }
  }

  lemma {:induction false} SortCounts(events: seq<Event>, p: Event -> bool)
    ensures Count(StableSort(events), p) == Count(events, p)
  {
    if events != [] {
      SortCounts(events[..|events| - 1], p);
      InsertCounts(StableSort(events[..|events| - 1]), events[|events| - 1], p);
    }
  }

  lemma OfKeySnoc(events: seq<Event>, e: Event, key: Event)
    ensures OfKey(events + [e], key) == if SameKey(e, key) then OfKey(events, key) + [e] else OfKey(events, key)
  {
    assert (events + [e])[..|events|] == events;
  }

  lemma {:induction false} InsertIsStable(events: seq<Event>, e: Event, key: Event)
    requires Sorted(events)
    ensures OfKey(Insert(events, e), key) == if SameKey(e, key) then OfKey(events, key) + [e] else OfKey(events, key)
  {
    if events == [] || AtMost(events[|events| - 1], e) {
      OfKeySnoc(events, e, key);
    } else {
      var init, last := events[..|events| - 1], events[|events| - 1];
      InsertIsStable(init, e, key);
      OfKeySnoc(Insert(init, e), last, key);
    }
  }

  lemma {:induction false} SortIsStable(events: seq<Event>, key: Event)
    ensures OfKey(StableSort(events), key) == OfKey(events, key)
  {
    if events != [] {
      SortIsStable(events[..|events| - 1], key);
      SortSorts(events[..|events| - 1]);
      InsertIsStable(StableSort(events[..|events| - 1]), events[|events| - 1], key);
    }
  }

  lemma {:induction false} OfKeyHolds(events: seq<Event>, key: Event, x: Event)
    ensures x in OfKey(events, key) <==> x in events && SameKey(x, key)
  {
    if events != [] {
      OfKeyHolds(events[..|events| - 1], key, x);
      assert events == events[..|events| - 1] + [events[|events| - 1]];
    }
  }

  /** The largest key of one sequence is the largest of the other, and so is the last event. */
  lemma SameLast(a: seq<Event>, b: seq<Event>)
    requires Sorted(a) && Sorted(b) && a != [] && forall key :: OfKey(a, key) == OfKey(b, key)
    ensures b != [] && a[|a| - 1] == b[|b| - 1]
  {
    var last := a[|a| - 1];
    OfKeyHolds(a, last, last);
    OfKeyHolds(b, last, last);
    assert OfKey(a, last) == OfKey(b, last);
    var end := b[|b| - 1];
    OfKeyHolds(b, end, end);
    OfKeyHolds(a, end, end);
    assert OfKey(a, end) == OfKey(b, end);
    assert SameKey(last, end);
    assert OfKey(a, last)[|OfKey(a, last)| - 1] == last;
    assert OfKey(b, last)[|OfKey(b, last)| - 1] == end;
  }

  /** A stable sort has only one possible result. */
  lemma {:induction false} StableSortIsUnique(a: seq<Event>, b: seq<Event>)
    requires Sorted(a) && Sorted(b) && forall key :: OfKey(a, key) == OfKey(b, key)
    ensures a == b
  {
    if a == [] {
      if b != [] { SameLast(b, a); }
    } else {
      SameLast(a, b);
      var a', b', last := a[..|a| - 1], b[..|b| - 1], a[|a| - 1];
      assert a == a' + [last] && b == b' + [last];
      forall key ensures OfKey(a', key) == OfKey(b', key) {
        OfKeySnoc(a', last, key);
        OfKeySnoc(b', last, key);
        assert OfKey(a, key) == OfKey(b, key);
        if SameKey(last, key) { SnocInjective(OfKey(a', key), OfKey(b', key), last); }
      }
      StableSortIsUnique(a', b');
    }
  }

  lemma SnocInjective(s: seq<Event>, t: seq<Event>, e: Event)
    requires s + [e] == t + [e]
    ensures s == t
  {
    assert s == (s + [e])[..|s|] && t == (t + [e])[..|t|];
  }

  // ---------------------------------------------------------------- checking a performance

  function Bounded(value: int, field: string, low: int, high: int): Option<string> {
    if low <= value <= high then None
    else Some(field + " must be an integer from " + Decimal.Int(low) + " to " + Decimal.Int(high))
  }

  function Ticks(value: int, field: string): Option<string> {
    if value < 0 then Some(field + " must be finite and non-negative") else None
  }

  function OrElse(a: Option<string>, b: Option<string>): Option<string> { if a.Some? then a else b }

  function SongError(s: Song): Option<string> {
    if !(20.0 <= s.tempo <= 300.0) then Some("tempo_bpm must be from 20 to 300")
    else
      OrElse(Bounded(s.ticksPerBeat, "ticks_per_beat", 96, 9600),
      OrElse(Bounded(s.program, "program", 0, 127),
      if |s.signature| != 2 || s.signature[1] !in {1, 2, 4, 8, 16, 32} then
        Some("time_signature must be [numerator, denominator]")
      else OrElse(Bounded(s.signature[0], "time_signature numerator", 1, 32),
      if s.notes == [] then Some("notes must be a non-empty array") else None)))
  }

  function At(list: string, i: nat, field: string): string { list + "[" + Decimal.Nat(i) + "]" + field }

  function NoteError(n: Note, i: nat): Option<string> {
    if !(0 <= n.pitch <= 127) then Some("Pitch out of MIDI range")
    else
      OrElse(Ticks(n.start, At("notes", i, ".start")),
      OrElse(Ticks(n.duration, At("notes", i, ".duration")),
      if n.duration <= 0 then Some(At("notes", i, ".duration must be positive"))
      else Bounded(n.velocity, At("notes", i, ".velocity"), 1, 127)))
  }

  function PedalError(p: Pedal, i: nat): Option<string> {
    OrElse(Ticks(p.start, At("pedal", i, ".start")),
    OrElse(Ticks(p.duration, At("pedal", i, ".duration")),
    if p.duration <= 0 then Some(At("pedal", i, ".duration must be positive"))
    else Bounded(p.value, At("pedal", i, ".value"), 64, 127)))
  }

  /** The first complaint, in the order in which items are looked at. */
  function NotesError(notes: seq<Note>): Option<string> {
    if notes == [] then None else OrElse(NotesError(notes[..|notes| - 1]), NoteError(notes[|notes| - 1], |notes| - 1))
  }

  function PedalsError(pedal: seq<Pedal>): Option<string> {
    if pedal == [] then None else OrElse(PedalsError(pedal[..|pedal| - 1]), PedalError(pedal[|pedal| - 1], |pedal| - 1))
  }

  function Error(s: Song): Option<string> { OrElse(SongError(s), OrElse(NotesError(s.notes), PedalsError(s.pedal))) }

  ghost predicate GoodNote(n: Note) {
    0 <= n.pitch <= 127 && n.start >= 0 && n.duration > 0 && 1 <= n.velocity <= 127
  }

  ghost predicate GoodPedal(p: Pedal) { p.start >= 0 && p.duration > 0 && 64 <= p.value <= 127 }

  lemma GoodWhenUnopposed(n: Note, i: nat)
    ensures NoteError(n, i).None? <==> GoodNote(n)
  {
  }

  lemma GoodPedalWhenUnopposed(p: Pedal, i: nat)
    ensures PedalError(p, i).None? <==> GoodPedal(p)
  {
  }

  lemma {:induction false} NotesAreGood(notes: seq<Note>)
    ensures NotesError(notes).None? <==> forall n :: n in notes ==> GoodNote(n)
  {
    if notes != [] {
      var init, last := notes[..|notes| - 1], notes[|notes| - 1];
      NotesAreGood(init);
      assert notes == init + [last];
      GoodWhenUnopposed(last, |notes| - 1);
    }
  }

  lemma {:induction false} PedalsAreGood(pedal: seq<Pedal>)
    ensures PedalsError(pedal).None? <==> forall p :: p in pedal ==> GoodPedal(p)
  {
    if pedal != [] {
      var init, last := pedal[..|pedal| - 1], pedal[|pedal| - 1];
      PedalsAreGood(init);
      assert pedal == init + [last];
      GoodPedalWhenUnopposed(last, |pedal| - 1);
    }
  }

  /** Which performances pass every check. */
  lemma AcceptedExactlyWhen(s: Song)
    ensures Error(s).None? <==>
            && 20.0 <= s.tempo <= 300.0 && 96 <= s.ticksPerBeat <= 9600 && 0 <= s.program <= 127
            && |s.signature| == 2 && 1 <= s.signature[0] <= 32 && s.signature[1] in {1, 2, 4, 8, 16, 32}
            && s.notes != []
            && (forall n :: n in s.notes ==>
                  0 <= n.pitch <= 127 && n.start >= 0 && n.duration > 0 && 1 <= n.velocity <= 127)
            && (forall p :: p in s.pedal ==> p.start >= 0 && p.duration > 0 && 64 <= p.value <= 127)
  {
    NotesAreGood(s.notes);
    PedalsAreGood(s.pedal);
  }

  // ---------------------------------------------------------------- the events of a performance

  /** Python's `round`: to the nearest, halves to even. */
  function Round(x: real): int {
    var f := x.Floor;
    if x - f as real < 0.5 || (x - f as real == 0.5 && f % 2 == 0) then f else f + 1
  }

  function Microseconds(tempo: real): int
    requires tempo > 0.0
  {
    Round(60_000_000.0 / tempo)
  }

  function Power(denominator: int): Byte {
    if denominator == 1 then 0 else if denominator == 2 then 1 else if denominator == 4 then 2
    else if denominator == 8 then 3 else if denominator == 16 then 4 else 5
  }

  lemma DenominatorIsPower(denominator: int)
    requires denominator in {1, 2, 4, 8, 16, 32}
    ensures Pow(2, Power(denominator)) == denominator
  {
    assert Pow(2, 4) == 16;
    assert Pow(2, 5) == 32;
  }

  lemma RealProduct(x: real, t: real, low: real, high: real)
    requires t > 0.0 && x * t == 60_000_000.0 && low * t <= 60_000_000.0 <= high * t
    ensures low <= x <= high
  {
    assert (x - low) * t >= 0.0;
    assert (high - x) * t >= 0.0;
  }

  /** The integer nearest to a number, the even one when two are equally near. */
  ghost predicate IsNearest(m: int, x: real) {
    && -0.5 <= m as real - x <= 0.5
    && (m as real - x == 0.5 || m as real - x == -0.5 ==> m % 2 == 0)
  }

  lemma RoundIsNearest(x: real)
    ensures IsNearest(Round(x), x)
  {
  }

  lemma NearestIsUnique(m: int, k: int, x: real)
    requires IsNearest(m, x) && IsNearest(k, x)
    ensures m == k
  {
    assert -1.0 <= m as real - k as real <= 1.0;
  }

  /** A beat lasts the nearest number of microseconds, and any accepted tempo fits the three bytes of its event. */
  lemma TempoFits(tempo: real)
    requires 20.0 <= tempo <= 300.0
    ensures IsNearest(Microseconds(tempo), 60_000_000.0 / tempo)
    ensures 200_000 <= Microseconds(tempo) <= 3_000_000 < Pow(256, 3)
  {
    var x := 60_000_000.0 / tempo;
    RealProduct(x, tempo, 200_000.0, 3_000_000.0);
    RoundIsNearest(x);
    assert Pow(256, 2) == 65_536 && Pow(256, 3) == 16_777_216;
  }

  function Opening(s: Song): seq<Event>
    requires SongError(s).None?
  {
    [
      Event(0, 0, Meta(0x03, s.title)),
      Event(0, 0, Meta(0x51, ToBytes(Microseconds(s.tempo), 3))),
      Event(0, 0, Meta(0x58, [s.signature[0], Power(s.signature[1]), 24, 8])),
      Event(0, 0, Short(0xC0, s.program))
    ]
  }

  function NoteOn(n: Note): Event
    requires GoodNote(n)
  {
    Event(n.start, 3, Voice(0x90, n.pitch, n.velocity))
  }

  function NoteOff(n: Note): Event
    requires GoodNote(n)
  {
    Event(n.start + n.duration, 2, Voice(0x80, n.pitch, 0))
  }

  function NoteEvents(notes: seq<Note>): seq<Event>
    requires forall n :: n in notes ==> GoodNote(n)
  {
    if notes == [] then []
    else
      var last := notes[|notes| - 1];
      NoteEvents(notes[..|notes| - 1]) + [NoteOn(last), NoteOff(last)]
  }

  function PedalDown(p: Pedal): Event
    requires GoodPedal(p)
  {
    Event(p.start, 1, Voice(0xB0, 64, p.value))
  }

  function PedalUp(p: Pedal): Event
    requires GoodPedal(p)
  {
    Event(p.start + p.duration, 1, Voice(0xB0, 64, 0))
  }

  function PedalEvents(pedal: seq<Pedal>): seq<Event>
    requires forall p :: p in pedal ==> GoodPedal(p)
  {
    if pedal == [] then []
    else
      var last := pedal[|pedal| - 1];
      PedalEvents(pedal[..|pedal| - 1]) + [PedalDown(last), PedalUp(last)]
  }

  ghost predicate Good(s: Song) {
    SongError(s).None? && (forall n :: n in s.notes ==> GoodNote(n)) && forall p :: p in s.pedal ==> GoodPedal(p)
  }

  function Events(s: Song): seq<Event>
    requires Good(s)
  {
    Opening(s) + NoteEvents(s.notes) + PedalEvents(s.pedal)
  }

  function NotesEnd(notes: seq<Note>): int {
    if notes == [] then 0
    else
      var n := notes[|notes| - 1];
      Max(NotesEnd(notes[..|notes| - 1]), n.start + n.duration)
  }

  function PedalsEnd(from: int, pedal: seq<Pedal>): int {
    if pedal == [] then from
    else
      var p := pedal[|pedal| - 1];
      Max(PedalsEnd(from, pedal[..|pedal| - 1]), p.start + p.duration)
  }

  function FinalTick(s: Song): int { PedalsEnd(NotesEnd(s.notes), s.pedal) }

  // ---------------------------------------------------------------- building the track

  method CollectNotes(notes: seq<Note>, before: seq<Event>)
    returns (error: Option<string>, events: seq<Event>, finalTick: int)
    ensures error == NotesError(notes)
    ensures error.None? ==>
      && (forall n :: n in notes ==> GoodNote(n))
      && events == before + NoteEvents(notes) && finalTick == NotesEnd(notes)
  {
    events, finalTick := before, 0;
    NotesAreGood(notes);
    assert notes[..|notes|] == notes;
    for i := 0 to |notes|
      invariant NotesError(notes[..i]).None? && (forall n :: n in notes[..i] ==> GoodNote(n))
      invariant events == before + NoteEvents(notes[..i]) && finalTick == NotesEnd(notes[..i])
    {
      var note := notes[i];
      error := NoteError(note, i);
      OneMoreNote(notes, i);
      if error.Some? { return; }
      GoodWhenUnopposed(note, i);
      OneMoreGoodNote(notes, i);
      var end := note.start + note.duration;
      events := events + [NoteOn(note)] + [NoteOff(note)];
      finalTick := Max(finalTick, end);
    }
    error := None;
  }

  lemma OneMoreNote(notes: seq<Note>, i: nat)
    requires i < |notes| && NotesError(notes[..i]).None?
    ensures NoteError(notes[i], i).Some? ==> NotesError(notes) == NoteError(notes[i], i)
    ensures NoteError(notes[i], i).None? ==> NotesError(notes[..i + 1]).None?
  {
    assert notes[..i + 1][..i] == notes[..i];
    if NoteError(notes[i], i).Some? { NotesErrorStays(notes, i + 1); }
  }

  /** The complaint about a list of notes names its first bad one. */
  lemma FirstBadNoteIsNamed(notes: seq<Note>, i: nat)
    requires i < |notes| && !GoodNote(notes[i]) && forall k :: 0 <= k < i ==> GoodNote(notes[k])
    ensures NotesError(notes) == NoteError(notes[i], i) && NotesError(notes).Some?
  {
    NotesAreGood(notes[..i]);
    GoodWhenUnopposed(notes[i], i);
    OneMoreNote(notes, i);
  }

  lemma OneMoreGoodNote(notes: seq<Note>, i: nat)
    requires i < |notes| && (forall n :: n in notes[..i] ==> GoodNote(n)) && GoodNote(notes[i])
    ensures forall n :: n in notes[..i + 1] ==> GoodNote(n)
    ensures NoteEvents(notes[..i + 1]) == NoteEvents(notes[..i]) + [NoteOn(notes[i]), NoteOff(notes[i])]
    ensures NotesEnd(notes[..i + 1]) == Max(NotesEnd(notes[..i]), notes[i].start + notes[i].duration)
  {
    var more := notes[..i + 1];
    assert more[..i] == notes[..i] && more[i] == notes[i];
    assert more == notes[..i] + [notes[i]];
  }

  lemma {:induction false} NotesErrorStays(notes: seq<Note>, n: nat)
    requires n <= |notes| && NotesError(notes[..n]).Some?
    ensures NotesError(notes) == NotesError(notes[..n])
    decreases |notes| - n
  {
    if n < |notes| {
      assert notes[..n + 1][..n] == notes[..n];
      NotesErrorStays(notes, n + 1);
    } else {
      assert notes[..n] == notes;
    }
  }

  lemma OneMorePedal(pedal: seq<Pedal>, i: nat)
    requires i < |pedal| && PedalsError(pedal[..i]).None?
    ensures PedalError(pedal[i], i).Some? ==> PedalsError(pedal) == PedalError(pedal[i], i)
    ensures PedalError(pedal[i], i).None? ==> PedalsError(pedal[..i + 1]).None?
  {
    assert pedal[..i + 1][..i] == pedal[..i];
    if PedalError(pedal[i], i).Some? { PedalsErrorStays(pedal, i + 1); }
  }

  lemma OneMoreGoodPedal(pedal: seq<Pedal>, i: nat, from: int)
    requires i < |pedal| && (forall p :: p in pedal[..i] ==> GoodPedal(p)) && GoodPedal(pedal[i])
    ensures forall p :: p in pedal[..i + 1] ==> GoodPedal(p)
    ensures PedalEvents(pedal[..i + 1]) == PedalEvents(pedal[..i]) + [PedalDown(pedal[i]), PedalUp(pedal[i])]
    ensures PedalsEnd(from, pedal[..i + 1]) == Max(PedalsEnd(from, pedal[..i]), pedal[i].start + pedal[i].duration)
  {
    var more := pedal[..i + 1];
    assert more[..i] == pedal[..i] && more[i] == pedal[i];
    assert more == pedal[..i] + [pedal[i]];
  }

  lemma {:induction false} PedalsErrorStays(pedal: seq<Pedal>, n: nat)
    requires n <= |pedal| && PedalsError(pedal[..n]).Some?
    ensures PedalsError(pedal) == PedalsError(pedal[..n])
    decreases |pedal| - n
  {
    if n < |pedal| {
      assert pedal[..n + 1][..n] == pedal[..n];
      PedalsErrorStays(pedal, n + 1);
    } else {
      assert pedal[..n] == pedal;
    }
  }

  method CollectPedal(pedal: seq<Pedal>, before: seq<Event>, from: int)
    returns (error: Option<string>, events: seq<Event>, finalTick: int)
    ensures error == PedalsError(pedal)
    ensures error.None? ==>
      && (forall p :: p in pedal ==> GoodPedal(p))
      && events == before + PedalEvents(pedal) && finalTick == PedalsEnd(from, pedal)
  {
    events, finalTick := before, from;
    PedalsAreGood(pedal);
    assert pedal[..|pedal|] == pedal;
    for i := 0 to |pedal|
      invariant PedalsError(pedal[..i]).None? && (forall p :: p in pedal[..i] ==> GoodPedal(p))
      invariant events == before + PedalEvents(pedal[..i]) && finalTick == PedalsEnd(from, pedal[..i])
    {
      var item := pedal[i];
      error := PedalError(item, i);
      OneMorePedal(pedal, i);
      if error.Some? { return; }
      GoodPedalWhenUnopposed(item, i);
      OneMoreGoodPedal(pedal, i, from);
      events := events + [PedalDown(item)] + [PedalUp(item)];
      finalTick := Max(finalTick, item.start + item.duration);
    }
    error := None;
  }

  /** The delta times and messages of the events, then an end of track at least one tick later. */
  function Rendered(events: seq<Event>, finalTick: int): seq<Byte>
    requires Writable(events, 0)
  {
    TrackBytes(events, 0) + (VlqBytes(Max(1, finalTick - LastTick(events, 0) + 1)) + Printed(END_OF_TRACK))
  }

  lemma TailUnfolds(events: seq<Event>, i: nat, previous: int, track: seq<Byte>)
    requires i < |events| && Writable(events[i..], previous)
    ensures Writable(events[i + 1..], events[i].tick)
    ensures track + TrackBytes(events[i..], previous)
         == track + VlqBytes(events[i].tick - previous) + Printed(events[i].message)
            + TrackBytes(events[i + 1..], events[i].tick)
    ensures LastTick(events[i..], previous) == LastTick(events[i + 1..], events[i].tick)
  {
    var tail := events[i..];
    assert tail[1..] == events[i + 1..] && tail[0] == events[i];
    var a, b, c := VlqBytes(events[i].tick - previous), Printed(events[i].message), TrackBytes(events[i + 1..], events[i].tick);
    assert TrackBytes(tail, previous) == a + b + c;
    Reassociate(track, a, b, c);
  }

  lemma Reassociate(a: seq<Byte>, b: seq<Byte>, c: seq<Byte>, d: seq<Byte>)
    ensures a + (b + c + d) == a + b + c + d
  {
  }

  method Render(events: seq<Event>, finalTick: int) returns (track: seq<Byte>)
    requires Writable(events, 0)
    ensures track == Rendered(events, finalTick)
  {
    track := [];
    var previous := 0;
    assert events[0..] == events;
    for i := 0 to |events|
      invariant Writable(events[i..], previous)
      invariant track + TrackBytes(events[i..], previous) == TrackBytes(events, 0)
      invariant LastTick(events[i..], previous) == LastTick(events, 0)
    {
      TailUnfolds(events, i, previous, track);
      var delta := Vlq(events[i].tick - previous);
      track := track + delta.value + Printed(events[i].message);
      previous := events[i].tick;
    }
    assert track == TrackBytes(events, 0);
    var end := Vlq(Max(1, finalTick - previous + 1));
    var last := MetaEvent(0x2F, []);
    track := track + (end.value + last);
  }

  /** The whole track of a performance that passes every check. */
  function Track(s: Song): seq<Byte>
    requires Good(s) && Writable(StableSort(Events(s)), 0)
  {
    Rendered(StableSort(Events(s)), FinalTick(s))
  }

  method BuildTrack(s: Song) returns (r: Result<(seq<Byte>, int, real)>)
    ensures r.Err? <==> Error(s).Some?
    ensures r.Err? ==> r.error == Error(s).value
    ensures r.Ok? ==> Good(s) && Writable(StableSort(Events(s)), 0) && r.value == (Track(s), s.ticksPerBeat, s.tempo)
  {
    var wrong := SongError(s);
    if wrong.Some? { return Err(wrong.value); }
    var error, events, finalTick := CollectNotes(s.notes, Opening(s));
    if error.Some? { return Err(error.value); }
    error, events, finalTick := CollectPedal(s.pedal, events, finalTick);
    if error.Some? { return Err(error.value); }
    SortedIsWritable(s);
    var track := Render(StableSort(events), finalTick);
    return Ok((track, s.ticksPerBeat, s.tempo));
  }

  // ---------------------------------------------------------------- reading it back

  /** What holds of every event of a performance. */
  ghost predicate Proper(e: Event, last: int) {
    0 <= e.tick <= last && WellFormed(e.message) && !IsEnd(e.message)
  }

  lemma {:induction false} NotesAreProper(notes: seq<Note>)
    requires forall n :: n in notes ==> GoodNote(n)
    ensures NotesEnd(notes) >= 0
    ensures forall e :: e in NoteEvents(notes) ==> Proper(e, NotesEnd(notes))
    ensures notes != [] ==> exists e :: e in NoteEvents(notes) && e.tick == NotesEnd(notes)
  {
    if notes != [] {
      var init, last := notes[..|notes| - 1], notes[|notes| - 1];
      NotesAreProper(init);
      assert last in notes;
      var all := NoteEvents(notes);
      assert all == NoteEvents(init) + [NoteOn(last), NoteOff(last)];
      assert all[|all| - 1] == NoteOff(last);
      if NotesEnd(notes) != last.start + last.duration {
        var e :| e in NoteEvents(init) && e.tick == NotesEnd(init);
        assert e in all;
      }
    }
  }

  lemma {:induction false} PedalsAreProper(from: int, pedal: seq<Pedal>)
    requires forall p :: p in pedal ==> GoodPedal(p)
    ensures PedalsEnd(from, pedal) >= from
    ensures forall e :: e in PedalEvents(pedal) ==> Proper(e, PedalsEnd(from, pedal))
    ensures PedalsEnd(from, pedal) == from || exists e :: e in PedalEvents(pedal) && e.tick == PedalsEnd(from, pedal)
  {
    if pedal != [] {
      var init, last := pedal[..|pedal| - 1], pedal[|pedal| - 1];
      PedalsAreProper(from, init);
      assert last in pedal;
      var all := PedalEvents(pedal);
      assert all == PedalEvents(init) + [PedalDown(last), PedalUp(last)];
      assert all[|all| - 1] == PedalUp(last);
      if PedalsEnd(from, pedal) != last.start + last.duration && PedalsEnd(from, init) != from {
        var e :| e in PedalEvents(init) && e.tick == PedalsEnd(from, init);
        assert e in all;
      }
    }
  }

  lemma EventsAreProper(s: Song)
    requires Good(s)
    ensures forall e :: e in Events(s) ==> Proper(e, FinalTick(s))
    ensures exists e :: e in Events(s) && e.tick == FinalTick(s)
  {
    NotesAreProper(s.notes);
    PedalsAreProper(NotesEnd(s.notes), s.pedal);
    TempoFits(s.tempo);
    var opening, notes, pedal := Opening(s), NoteEvents(s.notes), PedalEvents(s.pedal);
    forall e | e in Events(s) ensures Proper(e, FinalTick(s)) {
      if e in opening {
      } else if e in notes {
      } else {
        assert e in pedal;
      }
    }
    if FinalTick(s) == NotesEnd(s.notes) {
      var e :| e in notes && e.tick == NotesEnd(s.notes);
      assert e in Events(s);
    } else {
      var e :| e in pedal && e.tick == FinalTick(s);
      assert e in Events(s);
    }
  }

  lemma {:induction false} SortedAt(events: seq<Event>, i: nat, j: nat)
    requires Sorted(events) && i <= j < |events|
    ensures AtMost(events[i], events[j])
  {
    if j < |events| - 1 {
      SortedAt(events[..|events| - 1], i, j);
    } else {
      assert events[i] in events;
    }
  }

  lemma {:induction false} SortedTailIsWritable(events: seq<Event>, i: nat, from: int, last: int)
    requires Sorted(events) && i <= |events|
    requires forall e :: e in events ==> Proper(e, last)
    requires i < |events| ==> from <= events[i].tick
    ensures Writable(events[i..], from)
    decreases |events| - i
  {
    if i < |events| {
      assert events[i] in events;
      if i + 1 < |events| { SortedAt(events, i, i + 1); }
      SortedTailIsWritable(events, i + 1, events[i].tick, last);
      assert events[i..][1..] == events[i + 1..];
    }
  }

  lemma SortedIsWritable(s: Song)
    requires Good(s)
    ensures Writable(StableSort(Events(s)), 0)
    ensures LastTick(StableSort(Events(s)), 0) == FinalTick(s)
  {
    var events, sorted := Events(s), StableSort(Events(s));
    EventsAreProper(s);
    SortSorts(events);
    forall e | e in sorted ensures Proper(e, FinalTick(s)) {
      SortHolds(events, e);
    }
    var latest :| latest in events && latest.tick == FinalTick(s);
    SortHolds(events, latest);
    assert latest in sorted;
    assert sorted[0] in sorted && sorted[|sorted| - 1] in sorted;
    SortedTailIsWritable(sorted, 0, 0, FinalTick(s));
    assert sorted[0..] == sorted;
    var i :| 0 <= i < |sorted| && sorted[i] == latest;
    SortedAt(sorted, i, |sorted| - 1);
  }

  /**
   * Every accepted performance: the track reads back as its events in their one stable order, at
   * their absolute ticks, then one end of track one tick after the last; or, if some distance between
   * two events (or the title) exceeds what four bytes can tell, it cannot be read at all.
   */
  lemma BuiltTrackReadsBack(s: Song)
    requires Good(s)
    ensures Writable(StableSort(Events(s)), 0)
    ensures ReadTrack(Track(s), 0)
         == if AllFit(StableSort(Events(s)), 0) then Some(Expected(StableSort(Events(s)), FinalTick(s) + 1)) else None
  {
    SortedIsWritable(s);
    RenderedReadsBack(StableSort(Events(s)), FinalTick(s));
  }

  lemma RenderedReadsBack(events: seq<Event>, finalTick: int)
    requires Writable(events, 0) && LastTick(events, 0) == finalTick
    ensures ReadTrack(Rendered(events, finalTick), 0)
         == if AllFit(events, 0) then Some(Expected(events, finalTick + 1)) else None
  {
    TrackReadsBack(events, 0, 1);
  }

  lemma {:induction false} FittingTracksAreShort(events: seq<Event>, previous: int)
    requires AllFit(events, previous)
    ensures LastTick(events, previous) <= previous + |events| * MAX_VLQ
    decreases events
  {
    if events != [] {
      FittingTracksAreShort(events[1..], events[0].tick);
      assert |events| * MAX_VLQ == MAX_VLQ + |events[1..]| * MAX_VLQ;
    }
  }

  /** A performance that lasts too long for its number of events is written, and cannot be read. */
  lemma LongSongCannotBeRead(s: Song)
    requires Good(s) && FinalTick(s) > |Events(s)| * MAX_VLQ
    ensures Writable(StableSort(Events(s)), 0) && ReadTrack(Track(s), 0) == None
  {
    BuiltTrackReadsBack(s);
    SortedIsWritable(s);
    SortLength(Events(s));
    if AllFit(StableSort(Events(s)), 0) { FittingTracksAreShort(StableSort(Events(s)), 0); }
  }

  /** One note, accepted, that begins after about 1.6 billion ticks. */
  const LATE_NOTE := Song(72.0, 480, 0, [4, 4], [], [Note(60, 6 * MAX_VLQ, 1, 72)], [])

  lemma LateNoteCannotBeRead()
    ensures Error(LATE_NOTE).None?
    ensures Good(LATE_NOTE) && Writable(StableSort(Events(LATE_NOTE)), 0) && ReadTrack(Track(LATE_NOTE), 0) == None
  {
    var note := LATE_NOTE.notes[0];
    assert LATE_NOTE.notes[..0] == [] && LATE_NOTE.pedal == [];
    assert NoteError(note, 0).None?;
    assert NotesError(LATE_NOTE.notes).None?;
    assert GoodNote(note);
    assert NoteEvents(LATE_NOTE.notes) == [] + [NoteOn(note), NoteOff(note)];
    assert NotesEnd(LATE_NOTE.notes) == 6 * MAX_VLQ + 1;
    LongSongCannotBeRead(LATE_NOTE);
  }

  // ---------------------------------------------------------------- what a player reads from the track
  lemma {:induction false} Pow2Grows(a: nat, b: nat)
    requires a < b
    ensures Pow(2, a) < Pow(2, b)
  {
    if a < b - 1 { Pow2Grows(a, b - 1); }
  }

  lemma PowerIsUnique(denominator: int, k: nat)
    requires denominator in {1, 2, 4, 8, 16, 32} && Pow(2, k) == denominator
    ensures k == Power(denominator)
  {
    DenominatorIsPower(denominator);
    if k < Power(denominator) { Pow2Grows(k, Power(denominator)); }
    if k > Power(denominator) { Pow2Grows(Power(denominator), k); }
  }

  /** A tempo event: three bytes holding the microseconds of a beat. */
  ghost predicate IsTempo(m: Message, tempo: real)
    requires tempo > 0.0
  {
    m.Meta? && m.kind == 0x51 && |m.data| == 3 && IsNearest(BigEndian(m.data), 60_000_000.0 / tempo)
  }

  /** A signature event: beats in a bar, the base-2 logarithm of the beat, and two constants. */
  ghost predicate IsSignature(m: Message, numerator: int, denominator: int) {
    && m.Meta? && m.kind == 0x58 && |m.data| == 4 && m.data[0] == numerator
    && Pow(2, m.data[1]) == denominator && m.data[2] == 24 && m.data[3] == 8
  }

  ghost predicate Opens(s: Song, m: Message)
    requires SongError(s).None?
  {
    || m == Meta(0x03, s.title) || IsTempo(m, s.tempo) || IsSignature(m, s.signature[0], s.signature[1])
    || m == Short(0xC0, s.program)
  }

  ghost predicate Plays(n: Note, t: Timed)
    requires GoodNote(n)
  {
    || t == Timed(n.start, Voice(0x90, n.pitch, n.velocity))
    || t == Timed(n.start + n.duration, Voice(0x80, n.pitch, 0))
  }

  ghost predicate Holds(p: Pedal, t: Timed)
    requires GoodPedal(p)
  {
    || t == Timed(p.start, Voice(0xB0, 64, p.value))
    || t == Timed(p.start + p.duration, Voice(0xB0, 64, 0))
  }

  /** The performance asks for this message at this tick. */
  ghost predicate Says(s: Song, t: Timed)
    requires Good(s)
  {
    || (t.tick == 0 && Opens(s, t.message))
    || (exists n :: n in s.notes && Plays(n, t))
    || (exists p :: p in s.pedal && Holds(p, t))
  }

  lemma TempoBytes(tempo: real, m: Message)
    requires 20.0 <= tempo <= 300.0
    ensures IsTempo(m, tempo) <==> m == Meta(0x51, ToBytes(Microseconds(tempo), 3))
  {
    TempoFits(tempo);
    ToBytesReadsBack(Microseconds(tempo), 3);
    if IsTempo(m, tempo) {
      NearestIsUnique(BigEndian(m.data), Microseconds(tempo), 60_000_000.0 / tempo);
      BigEndianWritesBack(m.data);
    }
  }

  lemma SignatureBytes(numerator: Byte, denominator: int, m: Message)
    requires denominator in {1, 2, 4, 8, 16, 32}
    ensures IsSignature(m, numerator, denominator) <==> m == Meta(0x58, [numerator, Power(denominator), 24, 8])
  {
    DenominatorIsPower(denominator);
    if IsSignature(m, numerator, denominator) {
      PowerIsUnique(denominator, m.data[1]);
      assert m.data == [numerator, Power(denominator), 24, 8];
    }
  }

  lemma OpeningHolds(s: Song, t: Timed)
    requires SongError(s).None?
    ensures HoldsTimed(Opening(s), t) <==> t.tick == 0 && Opens(s, t.message)
  {
    var opening := Opening(s);
    TempoBytes(s.tempo, t.message);
    SignatureBytes(s.signature[0], s.signature[1], t.message);
    if t.tick == 0 && Opens(s, t.message) {
      assert t == TimedOf(opening[0]) || t == TimedOf(opening[1]) || t == TimedOf(opening[2]) || t == TimedOf(opening[3]);
    }
  }

  function TimedOf(e: Event): Timed { Timed(e.tick, e.message) }

  ghost predicate HoldsTimed(events: seq<Event>, t: Timed) { exists e :: e in events && TimedOf(e) == t }

  lemma {:induction false} NotesHold(notes: seq<Note>, t: Timed)
    requires forall n :: n in notes ==> GoodNote(n)
    ensures HoldsTimed(NoteEvents(notes), t) <==> exists n :: n in notes && Plays(n, t)
  {
    if notes != [] {
      var init, last := notes[..|notes| - 1], notes[|notes| - 1];
      assert last in notes && notes == init + [last];
      NotesHold(init, t);
      PairHolds(NoteEvents(init), NoteOn(last), NoteOff(last), t);
    }
  }

  lemma {:induction false} PedalsHold(pedal: seq<Pedal>, t: Timed)
    requires forall p :: p in pedal ==> GoodPedal(p)
    ensures HoldsTimed(PedalEvents(pedal), t) <==> exists p :: p in pedal && Holds(p, t)
  {
    if pedal != [] {
      var init, last := pedal[..|pedal| - 1], pedal[|pedal| - 1];
      assert last in pedal && pedal == init + [last];
      PedalsHold(init, t);
      PairHolds(PedalEvents(init), PedalDown(last), PedalUp(last), t);
    }
  }

  lemma PairHolds(events: seq<Event>, a: Event, b: Event, t: Timed)
    ensures HoldsTimed(events + [a, b], t) <==> HoldsTimed(events, t) || TimedOf(a) == t || TimedOf(b) == t
  {
    if HoldsTimed(events, t) {
      var e :| e in events && TimedOf(e) == t;
      assert e in events + [a, b];
    }
    assert a in events + [a, b] && b in events + [a, b];
  }

  lemma JoinHolds(a: seq<Event>, b: seq<Event>, t: Timed)
    ensures HoldsTimed(a + b, t) <==> HoldsTimed(a, t) || HoldsTimed(b, t)
  {
    if HoldsTimed(a, t) {
      var e :| e in a && TimedOf(e) == t;
      assert e in a + b;
    }
    if HoldsTimed(b, t) {
      var e :| e in b && TimedOf(e) == t;
      assert e in a + b;
    }
  }

  lemma EventsSay(s: Song, t: Timed)
    requires Good(s)
    ensures HoldsTimed(Events(s), t) <==> Says(s, t)
  {
    OpeningHolds(s, t);
    NotesHold(s.notes, t);
    PedalsHold(s.pedal, t);
    JoinHolds(Opening(s), NoteEvents(s.notes), t);
    JoinHolds(Opening(s) + NoteEvents(s.notes), PedalEvents(s.pedal), t);
  }

  lemma SortedSays(s: Song, t: Timed)
    requires Good(s)
    ensures t in Times(StableSort(Events(s))) <==> Says(s, t)
  {
    var sorted := StableSort(Events(s));
    EventsSay(s, t);
    forall e ensures e in sorted <==> e in Events(s) { SortHolds(Events(s), e); }
    if t in Times(sorted) {
      var i :| 0 <= i < |sorted| && Times(sorted)[i] == t;
      assert sorted[i] in sorted && TimedOf(sorted[i]) == t;
    }
    if HoldsTimed(Events(s), t) {
      var e :| e in Events(s) && TimedOf(e) == t;
      var i :| 0 <= i < |sorted| && sorted[i] == e;
      assert Times(sorted)[i] == t;
    }
  }

  /** Within a tick: what sets up the instrument, then the pedal, then keys released, then keys struck. */
  function Turn(m: Message): int {
    if !m.Voice? then 0 else if m.status == 0xB0 then 1 else if m.status == 0x80 then 2 else 3
  }

  lemma {:induction false} NotesInTurn(notes: seq<Note>)
    requires forall n :: n in notes ==> GoodNote(n)
    ensures |NoteEvents(notes)| == 2 * |notes|
    ensures forall e :: e in NoteEvents(notes) ==> e.priority == Turn(e.message)
  {
    if notes != [] {
      assert notes[|notes| - 1] in notes;
      NotesInTurn(notes[..|notes| - 1]);
    }
  }

  lemma {:induction false} PedalsInTurn(pedal: seq<Pedal>)
    requires forall p :: p in pedal ==> GoodPedal(p)
    ensures |PedalEvents(pedal)| == 2 * |pedal|
    ensures forall e :: e in PedalEvents(pedal) ==> e.priority == Turn(e.message)
  {
    if pedal != [] {
      assert pedal[|pedal| - 1] in pedal;
      PedalsInTurn(pedal[..|pedal| - 1]);
    }
  }

  lemma EventsInTurn(s: Song, i: nat, j: nat)
    requires Good(s) && i <= j < |StableSort(Events(s))|
    ensures var a, b := StableSort(Events(s))[i], StableSort(Events(s))[j];
            a.tick < b.tick || (a.tick == b.tick && Turn(a.message) <= Turn(b.message))
  {
    var sorted := StableSort(Events(s));
    SortSorts(Events(s));
    SortedAt(sorted, i, j);
    SortHolds(Events(s), sorted[i]);
    SortHolds(Events(s), sorted[j]);
    assert sorted[i] in sorted && sorted[j] in sorted;
    NotesInTurn(s.notes);
    PedalsInTurn(s.pedal);
  }

  lemma SongLength(s: Song)
    requires Good(s)
    ensures |StableSort(Events(s))| == 4 + 2 * |s.notes| + 2 * |s.pedal|
  {
    SortLength(Events(s));
    NotesInTurn(s.notes);
    PedalsInTurn(s.pedal);
  }

  /**
   * What a player finds in the track of any accepted performance that can be read: exactly what the
   * performance asks for, each at its tick, in the order of the ticks and in turn within one, and an end
   * of track one tick after the last of it.
   */
  lemma TrackPlaysTheSong(s: Song)
    requires Good(s) && AllFit(StableSort(Events(s)), 0)
    ensures Writable(StableSort(Events(s)), 0) && ReadTrack(Track(s), 0).Some?
    ensures var read := ReadTrack(Track(s), 0).value;
            var n := 4 + 2 * |s.notes| + 2 * |s.pedal|;
            && |read| == n + 1 && read[n] == Timed(read[n - 1].tick + 1, END_OF_TRACK)
            && (forall t :: t in read[..n] <==> Says(s, t))
            && (forall i, j :: 0 <= i <= j < n ==> InOrder(read[i], read[j]))
  {
    var sorted := StableSort(Events(s));
    var n := |sorted|;
    BuiltTrackReadsBack(s);
    SongLength(s);
    SortedIsWritable(s);
    var read := Expected(sorted, FinalTick(s) + 1);
    assert read[..n] == Times(sorted);
    forall t ensures t in read[..n] <==> Says(s, t) { SortedSays(s, t); }
    forall i, j | 0 <= i <= j < n ensures InOrder(read[i], read[j]) { EventsInTurn(s, i, j); }
  }

  ghost predicate InOrder(a: Timed, b: Timed) {
    a.tick < b.tick || (a.tick == b.tick && Turn(a.message) <= Turn(b.message))
  }

  // ---------------------------------------------------------------- keys struck and released

  function Strikes(pitch: Byte): Event -> bool {
    (e: Event) => e.message.Voice? && e.message.status == 0x90 && e.message.first == pitch
  }

  function Releases(pitch: Byte): Event -> bool {
    (e: Event) => e.message.Voice? && e.message.status == 0x80 && e.message.first == pitch
  }

  function StrikesBefore(pitch: Byte, key: Event): Event -> bool { (e: Event) => Strikes(pitch)(e) && !AtMost(key, e) }

  function ReleasesUpTo(pitch: Byte, key: Event): Event -> bool { (e: Event) => Releases(pitch)(e) && AtMost(e, key) }

  lemma {:induction false} CountAppend(a: seq<Event>, b: seq<Event>, p: Event -> bool)
    ensures Count(a + b, p) == Count(a, p) + Count(b, p)
  {
    if b == [] {
      assert a + b == a;
    } else {
      assert (a + b)[..|a + b| - 1] == a + b[..|b| - 1];
      CountAppend(a, b[..|b| - 1], p);
    }
  }

  lemma {:induction false} CountImplies(events: seq<Event>, p: Event -> bool, q: Event -> bool)
    requires forall e :: e in events && p(e) ==> q(e)
    ensures Count(events, p) <= Count(events, q)
  {
    if events != [] {
      assert events[|events| - 1] in events;
      CountImplies(events[..|events| - 1], p, q);
    }
  }

  lemma CountNone(events: seq<Event>, p: Event -> bool)
    requires forall e :: e in events ==> !p(e)
    ensures Count(events, p) == 0
  {
    CountImplies(events, p, (e: Event) => false);
    CountFalse(events);
  }

  lemma {:induction false} CountFalse(events: seq<Event>)
    ensures Count(events, (e: Event) => false) == 0
  {
    if events != [] { CountFalse(events[..|events| - 1]); }
  }

  lemma PairCounts(a: Event, b: Event, p: Event -> bool)
    ensures Count([a, b], p) == (if p(a) then 1 else 0) + (if p(b) then 1 else 0)
  {
    var one, two := [a], [a, b];
    assert one[..|one| - 1] == [] && two[..|two| - 1] == one;
    assert Count(one, p) == if p(a) then 1 else 0;
  }

  /** Each note is struck strictly before it is released, so releases up to a key are covered. */
  lemma {:induction false} NotesAreCovered(notes: seq<Note>, pitch: Byte, key: Event)
    requires forall n :: n in notes ==> GoodNote(n)
    ensures Count(NoteEvents(notes), ReleasesUpTo(pitch, key)) <= Count(NoteEvents(notes), StrikesBefore(pitch, key))
    ensures Count(NoteEvents(notes), Releases(pitch)) == Count(NoteEvents(notes), Strikes(pitch))
  {
    if notes != [] {
      var init, last := notes[..|notes| - 1], notes[|notes| - 1];
      NotesAreCovered(init, pitch, key);
      assert last in notes;
      var on, off := NoteOn(last), NoteOff(last);
      forall p: Event -> bool
        ensures Count(NoteEvents(notes), p) == Count(NoteEvents(init), p) + (if p(on) then 1 else 0) + (if p(off) then 1 else 0)
      {
        CountAppend(NoteEvents(init), [on, off], p);
        PairCounts(on, off, p);
      }
    }
  }

  lemma {:induction false} PedalsAreNoNotes(pedal: seq<Pedal>)
    requires forall p :: p in pedal ==> GoodPedal(p)
    ensures forall e :: e in PedalEvents(pedal) ==> e.message.Voice? && e.message.status == 0xB0
  {
    if pedal != [] {
      assert pedal[|pedal| - 1] in pedal;
      PedalsAreNoNotes(pedal[..|pedal| - 1]);
    }
  }

  ghost predicate OnlyNotes(p: Event -> bool) {
    forall e: Event :: p(e) ==> e.message.Voice? && e.message.status in {0x80, 0x90}
  }

  lemma SongCounts(s: Song, p: Event -> bool)
    requires Good(s) && OnlyNotes(p)
    ensures Count(StableSort(Events(s)), p) == Count(NoteEvents(s.notes), p)
  {
    SortCounts(Events(s), p);
    CountAppend(Opening(s) + NoteEvents(s.notes), PedalEvents(s.pedal), p);
    CountAppend(Opening(s), NoteEvents(s.notes), p);
    PedalsAreNoNotes(s.pedal);
    CountNone(PedalEvents(s.pedal), p);
    CountNone(Opening(s), p);
  }

  lemma {:induction false} CountTail(events: seq<Event>, k: nat, p: Event -> bool)
    requires k <= |events|
    ensures Count(events[..k], p) <= Count(events, p)
    ensures (forall i :: k <= i < |events| ==> !p(events[i])) ==> Count(events[..k], p) == Count(events, p)
  {
    if k < |events| {
      assert events[..|events| - 1][..k] == events[..k];
      CountTail(events[..|events| - 1], k, p);
    } else {
      assert events[..k] == events;
    }
  }

  /** Up to an event of a sorted list: the releases so far, and the strikes before it, all lie in the prefix. */
  lemma PrefixCounts(events: seq<Event>, k: nat, pitch: Byte)
    requires Sorted(events) && 0 < k <= |events|
    ensures Count(events[..k], Releases(pitch)) <= Count(events, ReleasesUpTo(pitch, events[k - 1]))
    ensures Count(events, StrikesBefore(pitch, events[k - 1])) <= Count(events[..k], Strikes(pitch))
  {
    var key := events[k - 1];
    var upTo, before := ReleasesUpTo(pitch, key), StrikesBefore(pitch, key);
    forall e | e in events[..k] ensures AtMost(e, key) {
      var i :| 0 <= i < k && events[i] == e;
      SortedAt(events, i, k - 1);
    }
    CountImplies(events[..k], Releases(pitch), upTo);
    CountTail(events, k, upTo);
    forall i | k <= i < |events| ensures !before(events[i]) {
      SortedAt(events, k - 1, i);
    }
    CountTail(events, k, before);
    CountImplies(events[..k], before, Strikes(pitch));
  }

  /** At every moment each key has been struck at least as often as released, and equally often at the end. */
  lemma NoKeyIsReleasedUnstruck(s: Song, k: nat, pitch: Byte)
    requires Good(s) && k <= |Events(s)|
    ensures |StableSort(Events(s))| == |Events(s)|
    ensures Count(StableSort(Events(s))[..k], Releases(pitch)) <= Count(StableSort(Events(s))[..k], Strikes(pitch))
    ensures Count(StableSort(Events(s)), Releases(pitch)) == Count(StableSort(Events(s)), Strikes(pitch))
  {
    var sorted := StableSort(Events(s));
    SortLength(Events(s));
    SortSorts(Events(s));
    SongCounts(s, Releases(pitch));
    SongCounts(s, Strikes(pitch));
    var key := if k > 0 then sorted[k - 1] else Event(0, 0, END_OF_TRACK);
    NotesAreCovered(s.notes, pitch, key);
    if k > 0 {
      PrefixCounts(sorted, k, pitch);
      SongCounts(s, ReleasesUpTo(pitch, key));
      SongCounts(s, StrikesBefore(pitch, key));
    }
  }

  lemma {:induction false} InsertLength(events: seq<Event>, e: Event)
    ensures |Insert(events, e)| == |events| + 1
  {
    if events != [] && !AtMost(events[|events| - 1], e) { InsertLength(events[..|events| - 1], e); }
  }

  lemma {:induction false} SortLength(events: seq<Event>)
    ensures |StableSort(events)| == |events|
  {
    if events != [] {
      SortLength(events[..|events| - 1]);
      InsertLength(StableSort(events[..|events| - 1]), events[|events| - 1]);
    }
  }
}
