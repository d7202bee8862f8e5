/**
 * Progressive answers: chunks of a response arrive out of order and more than once, and are put back
 * in sequence within a byte budget. Texts are Unicode texts and their sizes are UTF-8 sizes.
 */
module ResponseAssembler {
  import opened Basics
  import Utf8

  const MAX_FINAL_BYTES := 32_768

  datatype FrameKind = Started | Chunk | Completed | Failed | Unknown

  datatype Frame = Frame(kind: FrameKind, responseId: string, sourceEventId: string, sequence: int, text: Option<string>)

  datatype Snapshot = Snapshot(responseId: string, sourceEventId: string, text: string)

  datatype Active = Active(
    sourceEventId: string, text: string, buffered: map<int, string>, nextSequence: int, textBytes: int, bufferedBytes: int)
  {
    function TotalBytes(): int { textBytes + bufferedBytes }
  }

  function Fresh(sourceEventId: string): Active { Active(sourceEventId, "", map[], 1, 0, 0) }

  /** The responses in progress, in the order they started, and the list last published. */
  datatype State = State(order: seq<string>, active: map<string, Active>, responses: seq<Snapshot>)

  const EMPTY := State([], map[], [])

  // ---------------------------------------------------------------- one response

  function Append(r: Active, text: string): Option<Active> {
    if r.TotalBytes() + Utf8.ByteCount(text) > MAX_FINAL_BYTES then None
    else Some(r.(text := r.text + text, textBytes := r.textBytes + Utf8.ByteCount(text)))
  }

  /** Take the next chunk out of the buffer, before it is appended. */
  function Unbuffer(r: Active): Active
    requires r.nextSequence in r.buffered
  {
    r.(buffered := r.buffered - {r.nextSequence},
       bufferedBytes := r.bufferedBytes - Utf8.ByteCount(r.buffered[r.nextSequence]))
  }

  /** Append buffered chunks for as long as the next one is there; None when one does not fit. */
  function Drain(r: Active): Option<Active>
    decreases |r.buffered|
  {
    if r.nextSequence !in r.buffered then Some(r)
    else
      var appended := Append(Unbuffer(r), r.buffered[r.nextSequence]);
      assert (r.buffered - {r.nextSequence}).Keys == r.buffered.Keys - {r.nextSequence};
      if appended.None? then None else Drain(appended.value.(nextSequence := r.nextSequence + 1))
  }

  datatype Outcome = Unchanged | Buffered(r: Active) | Advanced(r: Active) | Overflow

  function ReceiveChunk(r: Active, sequence: int, text: string): Outcome {
    if sequence < r.nextSequence then Unchanged
    else if sequence > r.nextSequence then
      if sequence in r.buffered then Unchanged
      else if r.TotalBytes() + Utf8.ByteCount(text) > MAX_FINAL_BYTES then Overflow
      else Buffered(r.(buffered := r.buffered[sequence := text], bufferedBytes := r.bufferedBytes + Utf8.ByteCount(text)))
    else
      var appended := Append(r, text);
      if appended.None? then Overflow
      else
        var drained := Drain(appended.value.(nextSequence := r.nextSequence + 1));
        if drained.None? then Overflow else Advanced(drained.value)
  }

  // ---------------------------------------------------------------- all responses

  function SnapshotOf(id: string, r: Active): Snapshot { Snapshot(id, r.sourceEventId, r.text) }

  function Published(order: seq<string>, active: map<string, Active>): seq<Snapshot> {
    if order == [] then []
    else
      Published(order[..|order| - 1], active)
      + (var id := order[|order| - 1]; if id in active then [SnapshotOf(id, active[id])] else [])
  }

  function Publish(s: State): State { s.(responses := Published(s.order, s.active)) }

  function Without(order: seq<string>, id: string): seq<string> {
    if order == [] then []
    else Without(order[..|order| - 1], id) + (if order[|order| - 1] == id then [] else [order[|order| - 1]])
  }

  function Remove(s: State, id: string): State {
    Publish(State(Without(s.order, id), s.active - {id}, s.responses))
  }

  function AcceptStarted(s: State, f: Frame): (State, Option<Snapshot>) {
    if f.responseId in s.active then (s, Some(SnapshotOf(f.responseId, s.active[f.responseId])))
    else
      var r := Fresh(f.sourceEventId);
      (Publish(s.(order := s.order + [f.responseId], active := s.active[f.responseId := r])), Some(SnapshotOf(f.responseId, r)))
  }

  function AcceptChunk(s: State, f: Frame): (State, Option<Snapshot>) {
    if f.responseId !in s.active then (s, None)
    else
      var id, r := f.responseId, s.active[f.responseId];
      if r.sourceEventId != f.sourceEventId || f.text.None? then (s, Some(SnapshotOf(id, r)))
      else match ReceiveChunk(r, f.sequence, f.text.value)
        case Unchanged => (s, Some(SnapshotOf(id, r)))
        case Buffered(r') => (s.(active := s.active[id := r']), Some(SnapshotOf(id, r')))
        case Advanced(r') => (Publish(s.(active := s.active[id := r'])), Some(SnapshotOf(id, r')))
        case Overflow => (Remove(s, id), None)
  }

  function AcceptTerminal(s: State, f: Frame): (State, Option<Snapshot>) {
    if f.responseId !in s.active then (s, None)
    else if s.active[f.responseId].sourceEventId != f.sourceEventId then
      (s, Some(SnapshotOf(f.responseId, s.active[f.responseId])))
    else (Remove(s, f.responseId), None)
  }

  function Accept(s: State, f: Frame): (State, Option<Snapshot>) {
    match f.kind
    case Started => AcceptStarted(s, f)
    case Chunk => AcceptChunk(s, f)
    case Completed => AcceptTerminal(s, f)
    case Failed => AcceptTerminal(s, f)
    case Unknown => (s, None)
  }

  class Assembler {
    var order: seq<string>
    var active: map<string, Active>
    var responses: seq<Snapshot>

    ghost function Value(): State
      reads this
    {
      State(order, active, responses)
    }

    constructor ()
      ensures Value() == EMPTY
    {
      order, active, responses := [], map[], [];
    }

    method PublishAll()
      modifies this`responses
      ensures Value() == Publish(old(Value()))
    {
      responses := [];
      for i := 0 to |order|
        invariant responses == Published(order[..i], active)
      {
        assert order[..i + 1][..i] == order[..i];
        if order[i] in active {
          responses := responses + [SnapshotOf(order[i], active[order[i]])];
        }
      }
      assert order[..|order|] == order;
    }

    method RemoveResponse(id: string)
      modifies this
      ensures Value() == Remove(old(Value()), id)
    {
      var kept := [];
      for i := 0 to |order|
        invariant kept == Without(order[..i], id)
      {
        assert order[..i + 1][..i] == order[..i];
        if order[i] != id { kept := kept + [order[i]]; }
      }
      assert order[..|order|] == order;
      order, active := kept, active - {id};
      PublishAll();
    }

    method AcceptFrame(f: Frame) returns (snapshot: Option<Snapshot>)
      modifies this
      ensures (Value(), snapshot) == Accept(old(Value()), f)
    {
      match f.kind {
        case Started =>
          if f.responseId in active {
            return Some(SnapshotOf(f.responseId, active[f.responseId]));
          }
          var r := Fresh(f.sourceEventId);
          order, active := order + [f.responseId], active[f.responseId := r];
          PublishAll();
          return Some(SnapshotOf(f.responseId, r));
        case Chunk =>
          snapshot := AcceptChunkFrame(f);
        case Completed =>
          snapshot := AcceptTerminalFrame(f);
        case Failed =>
          snapshot := AcceptTerminalFrame(f);
        case Unknown =>
          return None;
      }
    }

    method AcceptTerminalFrame(f: Frame) returns (snapshot: Option<Snapshot>)
      modifies this
      ensures (Value(), snapshot) == AcceptTerminal(old(Value()), f)
    {
      if f.responseId !in active { return None; }
      if active[f.responseId].sourceEventId != f.sourceEventId {
        return Some(SnapshotOf(f.responseId, active[f.responseId]));
      }
      RemoveResponse(f.responseId);
      return None;
    }

    method AcceptChunkFrame(f: Frame) returns (snapshot: Option<Snapshot>)
      modifies this
      ensures (Value(), snapshot) == AcceptChunk(old(Value()), f)
    {
      if f.responseId !in active { return None; }
      var id, r := f.responseId, active[f.responseId];
      if r.sourceEventId != f.sourceEventId || f.text.None? { return Some(SnapshotOf(id, r)); }
      var text := f.text.value;
      if f.sequence < r.nextSequence { return Some(SnapshotOf(id, r)); }
      if f.sequence > r.nextSequence {
        if f.sequence in r.buffered { return Some(SnapshotOf(id, r)); }
        if r.TotalBytes() + Utf8.ByteCount(text) > MAX_FINAL_BYTES {
          RemoveResponse(id);
          return None;
        }
        r := r.(buffered := r.buffered[f.sequence := text], bufferedBytes := r.bufferedBytes + Utf8.ByteCount(text));
        active := active[id := r];
        return Some(SnapshotOf(id, r));
      }
      var appended := Append(r, text);
      if appended.None? {
        RemoveResponse(id);
        return None;
      }
      r := appended.value.(nextSequence := r.nextSequence + 1);
      ghost var start := r;
      while r.nextSequence in r.buffered
        invariant Drain(start) == Drain(r)
        decreases |r.buffered|
      {
        assert (r.buffered - {r.nextSequence}).Keys == r.buffered.Keys - {r.nextSequence};
        appended := Append(Unbuffer(r), r.buffered[r.nextSequence]);
        if appended.None? {
          RemoveResponse(id);
          return None;
        }
        r := appended.value.(nextSequence := r.nextSequence + 1);
      }
      active := active[id := r];
      PublishAll();
      return Some(SnapshotOf(id, r));
    }
  }

  // ---------------------------------------------------------------- invariants of every run

  /** Sequence numbers that a decoded frame can carry: 0 to 999. */
  const SEQUENCE_LIMIT: nat := 1_000

  /** The real size of the chunks numbered below `limit` in a buffer. */
  ghost function SizeBelow(m: map<int, string>, limit: nat): nat {
    if limit == 0 then 0
    else SizeBelow(m, limit - 1) + (if limit - 1 in m then Utf8.ByteCount(m[limit - 1]) else 0)
  }

  ghost function BufferedSize(m: map<int, string>): nat { SizeBelow(m, SEQUENCE_LIMIT) }

  lemma {:induction false} SizeBelowWith(m: map<int, string>, k: int, text: string, limit: nat)
    requires k !in m
    ensures SizeBelow(m[k := text], limit) == SizeBelow(m, limit) + (if 0 <= k < limit then Utf8.ByteCount(text) else 0)
  {
    if limit > 0 {
      SizeBelowWith(m, k, text, limit - 1);
    }
  }

  lemma BufferedSizeWith(m: map<int, string>, k: int, text: string)
    requires k !in m && 0 <= k < SEQUENCE_LIMIT
    ensures BufferedSize(m[k := text]) == BufferedSize(m) + Utf8.ByteCount(text)
  {
    SizeBelowWith(m, k, text, SEQUENCE_LIMIT);
  }

  lemma BufferedSizeWithout(m: map<int, string>, k: int)
    requires k in m && 0 <= k < SEQUENCE_LIMIT
    ensures BufferedSize(m) == Utf8.ByteCount(m[k]) + BufferedSize(m - {k})
  {
    SizeBelowWith(m - {k}, k, m[k], SEQUENCE_LIMIT);
    assert (m - {k})[k := m[k]] == m;
  }

  lemma {:induction false} NothingBelow(m: map<int, string>, low: nat, high: nat)
    requires low <= high
    requires forall k :: k in m ==> !(low <= k < high)
    ensures SizeBelow(m, high) == SizeBelow(m, low)
  {
    if low < high {
      NothingBelow(m, low, high - 1);
    }
  }

  /** The counters are the true UTF-8 sizes, and only chunks from `from` on are buffered. */
  ghost predicate Counted(r: Active, from: int) {
    && r.textBytes == Utf8.ByteCount(r.text)
    && r.bufferedBytes == BufferedSize(r.buffered)
    && forall k :: k in r.buffered ==> 0 <= from <= k < SEQUENCE_LIMIT
  }

  ghost predicate Sound(r: Active) {
    r.nextSequence >= 1 && Counted(r, r.nextSequence + 1) && r.TotalBytes() <= MAX_FINAL_BYTES
  }

  /** Moving a chunk from the buffer to the text never changes the total: the loop cannot overflow. */
  lemma {:induction false} DrainIsSound(r: Active)
    requires r.nextSequence >= 1 && Counted(r, r.nextSequence) && r.TotalBytes() <= MAX_FINAL_BYTES
    ensures Drain(r).Some? && Sound(Drain(r).value)
    ensures Drain(r).value.sourceEventId == r.sourceEventId && Drain(r).value.TotalBytes() == r.TotalBytes()
    decreases |r.buffered|
  {
    if r.nextSequence in r.buffered {
      var text := r.buffered[r.nextSequence];
      BufferedSizeWithout(r.buffered, r.nextSequence);
      Utf8.ByteCountConcat(r.text, text);
      assert (r.buffered - {r.nextSequence}).Keys == r.buffered.Keys - {r.nextSequence};
      DrainIsSound(Append(Unbuffer(r), text).value.(nextSequence := r.nextSequence + 1));
    }
  }

  /** An overflow can only be the first check of an arriving chunk, never the draining loop. */
  lemma ReceiveIsSound(r: Active, sequence: int, text: string)
    requires Sound(r) && sequence < SEQUENCE_LIMIT
    ensures match ReceiveChunk(r, sequence, text)
            case Unchanged => true
            case Buffered(r') => Sound(r') && r'.text == r.text && r'.sourceEventId == r.sourceEventId
            case Advanced(r') => Sound(r') && r'.sourceEventId == r.sourceEventId
            case Overflow => r.TotalBytes() + Utf8.ByteCount(text) > MAX_FINAL_BYTES
  {
    if r.TotalBytes() + Utf8.ByteCount(text) > MAX_FINAL_BYTES {
    } else if sequence > r.nextSequence && sequence !in r.buffered {
      EarlyIsSound(r, sequence, text);
    } else if sequence == r.nextSequence && Append(r, text).Some? {
      InTurnIsCounted(r, text);
      DrainIsSound(Append(r, text).value.(nextSequence := r.nextSequence + 1));
    }
  }

  lemma EarlyIsSound(r: Active, sequence: int, text: string)
    requires Sound(r) && r.nextSequence < sequence < SEQUENCE_LIMIT && sequence !in r.buffered
    requires r.TotalBytes() + Utf8.ByteCount(text) <= MAX_FINAL_BYTES
    ensures Sound(r.(buffered := r.buffered[sequence := text], bufferedBytes := r.bufferedBytes + Utf8.ByteCount(text)))
  {
    BufferedSizeWith(r.buffered, sequence, text);
  }

  lemma InTurnIsCounted(r: Active, text: string)
    requires Sound(r) && Append(r, text).Some?
    ensures Counted(Append(r, text).value, r.nextSequence + 1)
  {
    Utf8.ByteCountConcat(r.text, text);
  }

  ghost predicate Distinct(order: seq<string>) {
    forall i, j :: 0 <= i < j < |order| ==> order[i] != order[j]
  }

  ghost predicate Inv(s: State) {
    && Distinct(s.order)
    && (forall id :: id in s.order <==> id in s.active)
    && (forall id :: id in s.active ==> Sound(s.active[id]))
    && s.responses == Published(s.order, s.active)
  }

  lemma {:induction false} WithoutRemoves(order: seq<string>, id: string)
    requires Distinct(order)
    ensures Distinct(Without(order, id))
    ensures forall x :: x in Without(order, id) <==> x in order && x != id
  {
    if order != [] {
      var init, last := order[..|order| - 1], order[|order| - 1];
      assert order == init + [last];
      WithoutRemoves(init, id);
      assert last !in init;
    }
  }

  lemma {:induction false} PublishedIgnoresBuffers(order: seq<string>, a: map<string, Active>, b: map<string, Active>)
    requires a.Keys == b.Keys
    requires forall id :: id in a ==> SnapshotOf(id, a[id]) == SnapshotOf(id, b[id])
    ensures Published(order, a) == Published(order, b)
  {
    if order != [] {
      PublishedIgnoresBuffers(order[..|order| - 1], a, b);
    }
  }

  lemma StartKeepsInv(s: State, id: string, source: string)
    requires Inv(s) && id !in s.active
    ensures Inv(Publish(s.(order := s.order + [id], active := s.active[id := Fresh(source)])))
  {
    NothingBelow(map[], 0, SEQUENCE_LIMIT);
    assert Sound(Fresh(source));
    assert id !in s.order;
  }

  lemma RemoveKeepsInv(s: State, id: string)
    requires Inv(s)
    ensures Inv(Remove(s, id))
  {
    WithoutRemoves(s.order, id);
  }

  lemma UpdateKeepsInv(s: State, id: string, r: Active)
    requires Inv(s) && id in s.active && Sound(r)
    ensures Inv(Publish(s.(active := s.active[id := r])))
    ensures SnapshotOf(id, r) == SnapshotOf(id, s.active[id]) ==> Inv(s.(active := s.active[id := r]))
  {
    if SnapshotOf(id, r) == SnapshotOf(id, s.active[id]) {
      PublishedIgnoresBuffers(s.order, s.active, s.active[id := r]);
    }
  }

  /** What decoding a frame has already checked. */
  ghost predicate Decoded(f: Frame) { 0 <= f.sequence < SEQUENCE_LIMIT }

  lemma ChunkKeepsInv(s: State, f: Frame)
    requires Inv(s) && Decoded(f)
    ensures Inv(AcceptChunk(s, f).0)
  {
    var id := f.responseId;
    if id in s.active && f.text.Some? {
      RemoveKeepsInv(s, id);
      ReceiveIsSound(s.active[id], f.sequence, f.text.value);
      var outcome := ReceiveChunk(s.active[id], f.sequence, f.text.value);
      if outcome.Buffered? || outcome.Advanced? {
        UpdateKeepsInv(s, id, outcome.r);
      }
    }
  }

  lemma AcceptKeepsInv(s: State, f: Frame)
    requires Inv(s) && Decoded(f)
    ensures Inv(Accept(s, f).0)
  {
    match f.kind {
      case Started => if f.responseId !in s.active { StartKeepsInv(s, f.responseId, f.sourceEventId); }
      case Chunk => ChunkKeepsInv(s, f);
      case Completed => RemoveKeepsInv(s, f.responseId);
      case Failed => RemoveKeepsInv(s, f.responseId);
      case Unknown =>
    }
  }

  function Feed(s: State, frames: seq<Frame>): State {
    if frames == [] then s else Accept(Feed(s, frames[..|frames| - 1]), frames[|frames| - 1]).0
  }

  /** Over every run: real byte counters within the budget, and what is published is what is held. */
  lemma {:induction false} FeedKeepsInv(frames: seq<Frame>)
    requires forall i :: 0 <= i < |frames| ==> Decoded(frames[i])
    ensures Inv(Feed(EMPTY, frames))
  {
    if frames != [] {
      FeedKeepsInv(frames[..|frames| - 1]);
      AcceptKeepsInv(Feed(EMPTY, frames[..|frames| - 1]), frames[|frames| - 1]);
    }
  }

  // ---------------------------------------------------------------- order independence

  /** Chunks 1..n of a response, concatenated. */
  function Prefix(texts: seq<string>, n: nat): string
    requires n <= |texts|
  {
    if n == 0 then "" else Prefix(texts, n - 1) + texts[n - 1]
  }

  ghost predicate FromTexts(m: map<int, string>, texts: seq<string>, after: int, upTo: int) {
    forall k :: k in m ==> after < k <= upTo && 1 <= k <= |texts| && m[k] == texts[k - 1]
  }

  /** A prefix and any later chunks together are no larger than the whole. */
  lemma {:induction false} PartsFitBelow(texts: seq<string>, m: map<int, string>, j: nat, n: nat)
    requires j <= n <= |texts| && FromTexts(m, texts, j, |texts|)
    ensures Utf8.ByteCount(Prefix(texts, j)) + SizeBelow(m, n + 1) <= Utf8.ByteCount(Prefix(texts, n))
  {
    if j == n {
      NothingBelow(m, 0, n + 1);
    } else {
      PartsFitBelow(texts, m, j, n - 1);
      Utf8.ByteCountConcat(Prefix(texts, n - 1), texts[n - 1]);
      assert n in m ==> m[n] == texts[n - 1];
      assert SizeBelow(m, n + 1) <= SizeBelow(m, n) + Utf8.ByteCount(texts[n - 1]);
    }
  }

  lemma PartsFit(texts: seq<string>, m: map<int, string>, j: nat)
    requires j <= |texts| < SEQUENCE_LIMIT && FromTexts(m, texts, j, |texts|)
    ensures Utf8.ByteCount(Prefix(texts, j)) + BufferedSize(m) <= Utf8.ByteCount(Prefix(texts, |texts|))
  {
    PartsFitBelow(texts, m, j, |texts|);
    NothingBelow(m, |texts| + 1, SEQUENCE_LIMIT);
  }

  /** How far a response has got once the chunks numbered `got` have arrived, in whatever order. */
  ghost predicate Progress(r: Active, texts: seq<string>, got: set<int>) {
    && Collecting(r, texts, got)
    && r.nextSequence !in got
  }

  ghost predicate Collecting(r: Active, texts: seq<string>, got: set<int>) {
    && 1 <= r.nextSequence <= |texts| + 1
    && Counted(r, r.nextSequence)
    && (forall k :: 1 <= k < r.nextSequence ==> k in got)
    && r.text == Prefix(texts, r.nextSequence - 1)
    && (forall k :: k in r.buffered <==> k in got && k >= r.nextSequence)
    && FromTexts(r.buffered, texts, r.nextSequence - 1, |texts|)
  }

  ghost predicate WithinBudget(texts: seq<string>) {
    |texts| < SEQUENCE_LIMIT && Utf8.ByteCount(Prefix(texts, |texts|)) <= MAX_FINAL_BYTES
  }

  /** One turn of the draining loop: the next chunk was waiting in the buffer. */
  lemma DrainStepCollects(r: Active, texts: seq<string>, got: set<int>)
    requires Collecting(r, texts, got) && r.nextSequence in r.buffered
    requires r.TotalBytes() <= MAX_FINAL_BYTES
    ensures Append(Unbuffer(r), r.buffered[r.nextSequence]).Some?
    ensures Collecting(Append(Unbuffer(r), r.buffered[r.nextSequence]).value.(nextSequence := r.nextSequence + 1), texts, got)
  {
    var next, text := r.nextSequence, r.buffered[r.nextSequence];
    BufferedSizeWithout(r.buffered, next);
    Utf8.ByteCountConcat(r.text, text);
    var r' := Append(Unbuffer(r), text).value.(nextSequence := next + 1);
    assert Counted(r', next + 1);
    assert forall j :: 1 <= j < next + 1 ==> j in got;
    assert r'.text == Prefix(texts, next);
    assert forall j :: j in r'.buffered <==> j in got && j >= next + 1;
    assert FromTexts(r'.buffered, texts, next, |texts|);
  }

  lemma {:induction false} DrainCollects(r: Active, texts: seq<string>, got: set<int>)
    requires Collecting(r, texts, got) && r.TotalBytes() <= MAX_FINAL_BYTES
    ensures Drain(r).Some? && Progress(Drain(r).value, texts, got) && Drain(r).value.sourceEventId == r.sourceEventId
    decreases |r.buffered|
  {
    if r.nextSequence in r.buffered {
      DrainStepCollects(r, texts, got);
      assert (r.buffered - {r.nextSequence}).Keys == r.buffered.Keys - {r.nextSequence};
      DrainCollects(Append(Unbuffer(r), r.buffered[r.nextSequence]).value.(nextSequence := r.nextSequence + 1), texts, got);
    }
  }

  /** Room is always left for a chunk that has not arrived yet. */
  lemma ChunkFits(r: Active, texts: seq<string>, got: set<int>, k: int)
    requires Progress(r, texts, got) && WithinBudget(texts) && r.nextSequence <= k <= |texts| && k !in r.buffered
    ensures r.TotalBytes() + Utf8.ByteCount(texts[k - 1]) <= MAX_FINAL_BYTES
    ensures BufferedSize(r.buffered[k := texts[k - 1]]) == r.bufferedBytes + Utf8.ByteCount(texts[k - 1])
  {
    BufferedSizeWith(r.buffered, k, texts[k - 1]);
    PartsFit(texts, r.buffered[k := texts[k - 1]], r.nextSequence - 1);
  }

  lemma InTurnCollects(r: Active, texts: seq<string>, got: set<int>, k: int)
    requires Progress(r, texts, got) && 1 <= k <= |texts| && k == r.nextSequence
    requires Append(r, texts[k - 1]).Some?
    ensures Collecting(Append(r, texts[k - 1]).value.(nextSequence := k + 1), texts, got + {k})
  {
    var r' := Append(r, texts[k - 1]).value.(nextSequence := k + 1);
    Utf8.ByteCountConcat(r.text, texts[k - 1]);
    assert Counted(r', k + 1);
    assert forall j :: 1 <= j < k + 1 ==> j in got + {k};
    assert r'.text == Prefix(texts, k);
    assert forall j :: j in r'.buffered <==> j in got + {k} && j >= k + 1;
    assert FromTexts(r'.buffered, texts, k, |texts|);
  }

  lemma EarlyCollects(r: Active, texts: seq<string>, got: set<int>, k: int)
    requires Progress(r, texts, got) && r.nextSequence < k <= |texts| < SEQUENCE_LIMIT && k !in r.buffered
    ensures Progress(r.(buffered := r.buffered[k := texts[k - 1]],
                        bufferedBytes := r.bufferedBytes + Utf8.ByteCount(texts[k - 1])), texts, got + {k})
  {
    BufferedSizeWith(r.buffered, k, texts[k - 1]);
    var r' := r.(buffered := r.buffered[k := texts[k - 1]], bufferedBytes := r.bufferedBytes + Utf8.ByteCount(texts[k - 1]));
    assert Counted(r', r.nextSequence);
    assert forall j :: j in r'.buffered <==> j in got + {k} && j >= r.nextSequence;
    assert FromTexts(r'.buffered, texts, r.nextSequence - 1, |texts|);
  }

  /** One arriving chunk of the response, new or repeated, early or in turn. */
  lemma ReceiveProgresses(r: Active, texts: seq<string>, got: set<int>, k: int)
    requires Progress(r, texts, got) && WithinBudget(texts) && 1 <= k <= |texts|
    ensures match ReceiveChunk(r, k, texts[k - 1])
            case Unchanged => Progress(r, texts, got + {k})
            case Buffered(r') => Progress(r', texts, got + {k}) && r'.sourceEventId == r.sourceEventId
            case Advanced(r') => Progress(r', texts, got + {k}) && r'.sourceEventId == r.sourceEventId
            case Overflow => false
  {
    var text, got' := texts[k - 1], got + {k};
    if k < r.nextSequence || k in r.buffered {
      assert got' == got;
    } else {
      ChunkFits(r, texts, got, k);
      if k == r.nextSequence {
        InTurnCollects(r, texts, got, k);
        DrainCollects(Append(r, text).value.(nextSequence := k + 1), texts, got');
      } else {
        EarlyCollects(r, texts, got, k);
      }
    }
  }

  /** Frames that may arrive while response `id` is in progress: its own chunks, or frames it ignores. */
  ghost predicate Harmless(f: Frame, id: string, source: string, texts: seq<string>) {
    || f.responseId != id
    || f.kind.Started? || f.kind.Unknown? || f.sourceEventId != source
    || (f.kind.Chunk? && (f.text.None? || IsOwnChunk(f, id, source, texts)))
  }

  ghost predicate IsOwnChunk(f: Frame, id: string, source: string, texts: seq<string>) {
    && f.kind.Chunk? && f.responseId == id && f.sourceEventId == source
    && 1 <= f.sequence <= |texts| && f.text == Some(texts[f.sequence - 1])
  }

  ghost function Got(frames: seq<Frame>, id: string, source: string, texts: seq<string>): set<int> {
    set i | 0 <= i < |frames| && IsOwnChunk(frames[i], id, source, texts) :: frames[i].sequence
  }

  ghost predicate InProgress(s: State, id: string, source: string, texts: seq<string>, got: set<int>) {
    id in s.active && s.active[id].sourceEventId == source && Progress(s.active[id], texts, got)
  }

  lemma AcceptProgresses(s: State, f: Frame, id: string, source: string, texts: seq<string>, got: set<int>)
    requires InProgress(s, id, source, texts, got) && WithinBudget(texts)
    requires Harmless(f, id, source, texts)
    ensures InProgress(Accept(s, f).0, id, source, texts,
                       got + (if IsOwnChunk(f, id, source, texts) then {f.sequence} else {}))
  {
    if IsOwnChunk(f, id, source, texts) {
      ReceiveProgresses(s.active[id], texts, got, f.sequence);
    } else {
      assert got + {} == got;
    }
  }

  lemma {:induction false} FeedProgresses(s: State, frames: seq<Frame>, id: string, source: string, texts: seq<string>)
    requires InProgress(s, id, source, texts, {}) && WithinBudget(texts)
    requires forall f :: f in frames ==> Harmless(f, id, source, texts)
    ensures InProgress(Feed(s, frames), id, source, texts, Got(frames, id, source, texts))
  {
    if frames == [] {
      assert Got(frames, id, source, texts) == {};
    } else {
      var init, f := frames[..|frames| - 1], frames[|frames| - 1];
      assert frames == init + [f] && f in frames;
      FeedProgresses(s, init, id, source, texts);
      AcceptProgresses(Feed(s, init), f, id, source, texts, Got(init, id, source, texts));
      GotSnoc(init, f, id, source, texts);
    }
  }

  lemma GotSnoc(init: seq<Frame>, f: Frame, id: string, source: string, texts: seq<string>)
    ensures Got(init + [f], id, source, texts)
         == Got(init, id, source, texts) + (if IsOwnChunk(f, id, source, texts) then {f.sequence} else {})
  {
    var frames := init + [f];
    forall k | k in Got(init, id, source, texts) ensures k in Got(frames, id, source, texts) {
      var i :| 0 <= i < |init| && IsOwnChunk(init[i], id, source, texts) && init[i].sequence == k;
      assert frames[i] == init[i];
    }
    if IsOwnChunk(f, id, source, texts) {
      assert frames[|init|] == f;
    }
  }

  /**
   * Once a response has started, any arrival order and any repetition of its chunks 1..n, mixed with
   * any other frames it ignores, ends with exactly the concatenation of the chunks.
   */
  lemma ReassemblyIsOrderIndependent(s: State, frames: seq<Frame>, id: string, source: string, texts: seq<string>)
    requires InProgress(s, id, source, texts, {}) && WithinBudget(texts)
    requires forall f :: f in frames ==> Harmless(f, id, source, texts)
    requires forall k :: 1 <= k <= |texts| ==> k in Got(frames, id, source, texts)
    ensures var s' := Feed(s, frames);
            && id in s'.active
            && s'.active[id].text == Prefix(texts, |texts|)
            && s'.active[id].nextSequence == |texts| + 1
            && s'.active[id].buffered == map[]
  {
    FeedProgresses(s, frames, id, source, texts);
    ProgressIsComplete(Feed(s, frames).active[id], texts, Got(frames, id, source, texts));
  }

  lemma ProgressIsComplete(r: Active, texts: seq<string>, got: set<int>)
    requires Progress(r, texts, got)
    requires forall k :: 1 <= k <= |texts| ==> k in got
    ensures r.nextSequence == |texts| + 1 && r.text == Prefix(texts, |texts|) && r.buffered == map[]
  {
    assert r.nextSequence !in got;
    assert forall k :: k !in r.buffered;
  }

  /** A `started` frame for an unknown response opens it with nothing received. */
  lemma StartedOpens(s: State, f: Frame, texts: seq<string>)
    requires f.kind.Started? && f.responseId !in s.active
    ensures InProgress(Accept(s, f).0, f.responseId, f.sourceEventId, texts, {})
  {
    NothingBelow(map[], 0, SEQUENCE_LIMIT);
  }

  // ---------------------------------------------------------------- what one frame leaves
  /** One snapshot for each response in progress, in the order in which they started. */
  ghost predicate Shown(s: State) {
    && |s.responses| == |s.order|
    && forall i :: 0 <= i < |s.order| ==>
         && s.order[i] in s.active
         && s.responses[i] == Snapshot(s.order[i], s.active[s.order[i]].sourceEventId, s.active[s.order[i]].text)
  }

  lemma {:induction false} PublishedShows(order: seq<string>, active: map<string, Active>)
    requires forall id :: id in order ==> id in active
    ensures Shown(State(order, active, Published(order, active)))
  {
    if order != [] {
      var init := order[..|order| - 1];
      assert order == init + [order[|order| - 1]];
      PublishedShows(init, active);
    }
  }

  lemma InvShows(s: State)
    requires Inv(s)
    ensures Shown(s)
  {
    PublishedShows(s.order, s.active);
  }

  /** Other responses are as they were. */
  ghost predicate SameOthers(s: State, after: State, id: string) {
    forall other :: other != id ==>
      && (other in after.active <==> other in s.active)
      && (other in s.active ==> after.active[other] == s.active[other])
  }

  /** The response is gone; its snapshot left the list and nothing else moved. */
  ghost predicate Ended(s: State, after: State, id: string) {
    && id !in after.active && SameOthers(s, after, id)
    && exists k :: IsSnapshotOf(s, k, id) && after.responses == s.responses[..k] + s.responses[k + 1..]
  }

  ghost predicate IsSnapshotOf(s: State, k: int, id: string) { 0 <= k < |s.responses| && s.responses[k].responseId == id }

  lemma {:induction false} WithoutMissing(order: seq<string>, id: string)
    requires id !in order
    ensures Without(order, id) == order
  {
    if order != [] {
      assert order == order[..|order| - 1] + [order[|order| - 1]];
      WithoutMissing(order[..|order| - 1], id);
    }
  }

  lemma {:induction false} WithoutOne(order: seq<string>, k: nat)
    requires Distinct(order) && k < |order|
    ensures Without(order, order[k]) == order[..k] + order[k + 1..]
  {
    var init, last := order[..|order| - 1], order[|order| - 1];
    if k == |order| - 1 {
      WithoutMissing(init, last);
    } else {
      WithoutOne(init, k);
      assert order[k + 1..] == init[k + 1..] + [last];
    }
  }

  lemma ShownWithout(s: State, after: State, k: nat)
    requires Shown(s) && Shown(after) && k < |s.order|
    requires after.order == s.order[..k] + s.order[k + 1..]
    requires forall id :: id in after.active ==> id in s.active && after.active[id] == s.active[id]
    ensures after.responses == s.responses[..k] + s.responses[k + 1..]
  {
    forall i | 0 <= i < |after.order| ensures after.responses[i] == (s.responses[..k] + s.responses[k + 1..])[i] {
      assert after.order[i] == s.order[if i < k then i else i + 1];
    }
  }

  lemma RemoveDropsOne(s: State, k: nat)
    requires Inv(s) && k < |s.order|
    ensures var after := Remove(s, s.order[k]);
            IsSnapshotOf(s, k, s.order[k]) && after.responses == s.responses[..k] + s.responses[k + 1..]
  {
    RemoveKeepsInv(s, s.order[k]);
    InvShows(s);
    InvShows(Remove(s, s.order[k]));
    WithoutOne(s.order, k);
    ShownWithout(s, Remove(s, s.order[k]), k);
  }

  lemma RemoveEnds(s: State, id: string)
    requires Inv(s) && id in s.active
    ensures Ended(s, Remove(s, id), id)
  {
    var k: nat :| k < |s.order| && s.order[k] == id;
    RemoveDropsOne(s, k);
  }

  /**
   * The end of a response takes it off the screen, whatever had arrived of it; the end of another
   * attempt at the same response changes nothing.
   */
  lemma TerminalEnds(s: State, f: Frame)
    requires Inv(s) && (f.kind.Completed? || f.kind.Failed?)
    ensures var (after, answer), id := Accept(s, f), f.responseId;
            if id in s.active && s.active[id].sourceEventId == f.sourceEventId then Ended(s, after, id) && answer == None
            else after == s
  {
    if f.responseId in s.active { RemoveEnds(s, f.responseId); }
  }

  /** A start opens an empty response at the end of the list, once; a repeated start changes nothing. */
  lemma StartedShows(s: State, f: Frame)
    requires Inv(s) && f.kind.Started?
    ensures var after, id := Accept(s, f).0, f.responseId;
            if id in s.active then after == s
            else
              && id in after.active && after.active[id] == Active(f.sourceEventId, "", map[], 1, 0, 0)
              && SameOthers(s, after, id)
              && after.responses == s.responses + [Snapshot(id, f.sourceEventId, "")]
  {
    if f.responseId !in s.active {
      StartKeepsInv(s, f.responseId, f.sourceEventId);
      InvShows(s);
      InvShows(Accept(s, f).0);
      assert Accept(s, f).0.responses == s.responses + [Snapshot(f.responseId, f.sourceEventId, "")];
    }
  }

  /** This chunk belongs to the response and has not been received yet. */
  ghost predicate IsNews(r: Active, f: Frame) {
    r.sourceEventId == f.sourceEventId && f.text.Some? && f.sequence >= r.nextSequence && f.sequence !in r.buffered
  }

  /**
   * A chunk ends its response exactly when it is news and no longer fits the budget. Any other chunk
   * that is not news changes nothing at all: the first copy of a chunk stays.
   */
  lemma ChunkEndsExactlyWhen(s: State, f: Frame)
    requires Inv(s) && Decoded(f) && f.kind.Chunk? && f.responseId in s.active
    ensures var (after, answer), id, r := Accept(s, f), f.responseId, s.active[f.responseId];
            && (id !in after.active <==>
                  IsNews(r, f) && Utf8.ByteCount(r.text) + BufferedSize(r.buffered) + Utf8.ByteCount(f.text.value) > 32_768)
            && (id !in after.active ==> Ended(s, after, id))
            && (id in after.active ==> after.order == s.order && SameOthers(s, after, id))
            && (!IsNews(r, f) ==> after == s)
  {
    var id, r := f.responseId, s.active[f.responseId];
    RemoveEnds(s, id);
    if f.text.Some? { ReceiveIsSound(r, f.sequence, f.text.value); }
  }

  /** Whatever the frame, what is answered is the response as it now stands, if it still stands. */
  lemma AnswerIsCurrent(s: State, f: Frame)
    ensures var (after, answer), id := Accept(s, f), f.responseId;
            answer == if !f.kind.Unknown? && id in after.active
                      then Some(Snapshot(id, after.active[id].sourceEventId, after.active[id].text)) else None
    ensures f.kind.Unknown? || (f.responseId !in s.active && !f.kind.Started?) ==> Accept(s, f).0 == s
  {
  }

  // ---------------------------------------------------------------- until it is started again
  lemma {:induction false} FeedConcat(s: State, a: seq<Frame>, b: seq<Frame>)
    ensures Feed(s, a + b) == Feed(Feed(s, a), b)
  {
    if b == [] {
      assert a + b == a;
    } else {
      assert (a + b)[..|a + b| - 1] == a + b[..|b| - 1];
      FeedConcat(s, a, b[..|b| - 1]);
    }
  }

  lemma {:induction false} FeedKeepsInvFrom(s: State, frames: seq<Frame>)
    requires Inv(s) && forall f :: f in frames ==> Decoded(f)
    ensures Inv(Feed(s, frames))
  {
    if frames != [] {
      var init, f := frames[..|frames| - 1], frames[|frames| - 1];
      assert frames == init + [f] && f in frames;
      FeedKeepsInvFrom(s, init);
      AcceptKeepsInv(Feed(s, init), f);
    }
  }

  lemma OnlyAStartOpens(s: State, f: Frame, id: string)
    requires id !in s.active && !(f.kind.Started? && f.responseId == id)
    ensures id !in Accept(s, f).0.active
  {
  }

  lemma {:induction false} GoneStaysGone(s: State, frames: seq<Frame>, id: string)
    requires id !in s.active
    requires forall f :: f in frames ==> !(f.kind.Started? && f.responseId == id)
    ensures id !in Feed(s, frames).active
  {
    if frames != [] {
      var init, f := frames[..|frames| - 1], frames[|frames| - 1];
      assert frames == init + [f] && f in frames;
      GoneStaysGone(s, init, id);
      OnlyAStartOpens(Feed(s, init), f, id);
    }
  }

  lemma InProgressIsShown(s: State, id: string)
    requires Inv(s) && id in s.active
    ensures exists i :: IsSnapshotOf(s, i, id)
  {
    InvShows(s);
    var i :| 0 <= i < |s.order| && s.order[i] == id;
    assert IsSnapshotOf(s, i, id);
  }

  /** After a start and any frames that leave the response alone, it is shown. */
  lemma ShownOnceStarted(s: State, started: Frame, frames: seq<Frame>, texts: seq<string>)
    requires Inv(s) && started.kind.Started? && started.responseId !in s.active && WithinBudget(texts)
    requires Decoded(started) && forall f :: f in frames ==> Decoded(f)
    requires forall f :: f in frames ==> Harmless(f, started.responseId, started.sourceEventId, texts)
    ensures var t := Feed(Accept(s, started).0, frames);
            && Inv(t) && started.responseId in t.active
            && t.active[started.responseId].sourceEventId == started.sourceEventId
            && exists i :: IsSnapshotOf(t, i, started.responseId)
  {
    var begun := Accept(s, started).0;
    AcceptKeepsInv(s, started);
    FeedKeepsInvFrom(begun, frames);
    StartedOpens(s, started, texts);
    FeedProgresses(begun, frames, started.responseId, started.sourceEventId, texts);
    InProgressIsShown(Feed(begun, frames), started.responseId);
  }

  lemma NotShownWhenGone(s: State, id: string)
    requires Inv(s) && id !in s.active
    ensures forall i :: !IsSnapshotOf(s, i, id)
  {
    InvShows(s);
  }

  /** After its end, and until a new start, the response is not shown. */
  lemma GoneOnceEnded(s: State, terminal: Frame, rest: seq<Frame>)
    requires Inv(s) && (terminal.kind.Completed? || terminal.kind.Failed?)
    requires terminal.responseId in s.active && s.active[terminal.responseId].sourceEventId == terminal.sourceEventId
    requires Decoded(terminal) && forall f :: f in rest ==> Decoded(f)
    requires forall f :: f in rest ==> !(f.kind.Started? && f.responseId == terminal.responseId)
    ensures forall i :: !IsSnapshotOf(Feed(Accept(s, terminal).0, rest), i, terminal.responseId)
  {
    var ended := Accept(s, terminal).0;
    TerminalEnds(s, terminal);
    AcceptKeepsInv(s, terminal);
    FeedKeepsInvFrom(ended, rest);
    GoneStaysGone(ended, rest, terminal.responseId);
    NotShownWhenGone(Feed(ended, rest), terminal.responseId);
  }

  lemma FeedInParts(s: State, first: Frame, frames: seq<Frame>, next: Frame, rest: seq<Frame>)
    ensures Feed(s, [first] + frames) == Feed(Accept(s, first).0, frames)
    ensures Feed(s, [first] + frames + [next] + rest) == Feed(Accept(Feed(s, [first] + frames), next).0, rest)
  {
    var before := [first] + frames;
    assert [first][..0] == [] && [next][..0] == [];
    FeedConcat(s, [first], frames);
    FeedConcat(s, before, [next]);
    FeedConcat(s, before + [next], rest);
  }

  /**
   * A response is on the screen from its start to its end: once its terminal has come, after whatever
   * frames, no later frame brings it back except a new start.
   */
  lemma EndedUntilStartedAgain(
      s: State, started: Frame, frames: seq<Frame>, terminal: Frame, rest: seq<Frame>, texts: seq<string>)
    requires Inv(s) && started.kind.Started? && started.responseId !in s.active && WithinBudget(texts)
    requires Decoded(started) && Decoded(terminal) && forall f :: f in frames || f in rest ==> Decoded(f)
    requires forall f :: f in frames ==> Harmless(f, started.responseId, started.sourceEventId, texts)
    requires terminal.kind.Completed? || terminal.kind.Failed?
    requires terminal.responseId == started.responseId && terminal.sourceEventId == started.sourceEventId
    requires forall f :: f in rest ==> !(f.kind.Started? && f.responseId == started.responseId)
    ensures exists i :: IsSnapshotOf(Feed(s, [started] + frames), i, started.responseId)
    ensures forall i :: !IsSnapshotOf(Feed(s, [started] + frames + [terminal] + rest), i, started.responseId)
  {
    FeedInParts(s, started, frames, terminal, rest);
    ShownOnceStarted(s, started, frames, texts);
    GoneOnceEnded(Feed(s, [started] + frames), terminal, rest);
  }
}
