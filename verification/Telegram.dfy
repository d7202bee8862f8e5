/**
 * Telegram intake: a poll persists the owner's updates and moves the saved offset past each update it
 * has dealt with; any write may fail, and a failed poll is simply repeated. Rows are keyed by a blind
 * index of the update, so a repeated update finds its row already there. Sealing is ideal.
 */
module Telegram {
  import opened Basics
  import Decimal

  datatype Update = Update(id: int, sender: int, chat: int, text: Option<string>, voice: Option<string>, sentAtMs: int)

  datatype Row = Row(channel: string, direction: string, sender: string, body: string, sentAtMs: int, state: string)

  /** What the code takes from outside: the owner check, the start command, and the keyed index. */
  datatype Platform = Platform(owns: int -> bool, isStart: Update -> bool, blind: string -> string)

  /** `starts`: what the sink for unknown starts was given. */
  datatype Store = Store(rows: map<string, Row>, offset: int, starts: seq<Update>)

  // ---------------------------------------------------------------- storing one update

  function Body(u: Update): Option<string> {
    if u.text.Some? then u.text else if u.voice.Some? then Some("voice:" + u.voice.value) else None
  }

  function Sender(u: Update): string { Decimal.Int(u.sender) + ":" + Decimal.Int(u.chat) }

  function Material(u: Update, body: string): string {
    "telegram|" + (Decimal.Int(u.id) + "|" + (Sender(u) + "|" + body))
  }

  function RowOf(u: Update, body: string): Row { Row("telegram", "inbound", Sender(u), body, u.sentAtMs, "received") }

  /** An update is stored under its index unless a row is there already. */
  function Persist(p: Platform, s: Store, u: Update, body: string): Store {
    var key := p.blind(Material(u, body));
    if key in s.rows then s else s.(rows := s.rows[key := RowOf(u, body)])
  }

  lemma IntHas(n: int, c: char)
    requires c == '|' || c == ':'
    ensures forall i :: 0 <= i < |Decimal.Int(n)| ==> Decimal.Int(n)[i] != c
  {
    var digits := Decimal.Nat(if n < 0 then -n else n);
    assert forall i :: 0 <= i < |digits| ==> Decimal.IsDigit(digits[i]);
  }

  lemma SenderHas(u: Update)
    ensures forall i :: 0 <= i < |Sender(u)| ==> Sender(u)[i] != '|'
  {
    IntHas(u.sender, '|');
    IntHas(u.chat, '|');
  }

  lemma SenderInjective(u: Update, v: Update)
    requires Sender(u) == Sender(v)
    ensures u.sender == v.sender && u.chat == v.chat
  {
    IntHas(u.sender, ':');
    IntHas(v.sender, ':');
    Decimal.DelimitedSplits(Decimal.Int(u.sender), Decimal.Int(v.sender), ':', Decimal.Int(u.chat), Decimal.Int(v.chat));
    Decimal.IntInjective(u.sender, v.sender);
    Decimal.IntInjective(u.chat, v.chat);
  }

  /** Two updates have the same index material exactly when they agree on everything it names. */
  lemma MaterialInjective(u: Update, b: string, v: Update, c: string)
    ensures Material(u, b) == Material(v, c) <==> u.id == v.id && u.sender == v.sender && u.chat == v.chat && b == c
  {
    if Material(u, b) == Material(v, c) {
      var ru, rv := Sender(u) + "|" + b, Sender(v) + "|" + c;
      var iu, iv := Decimal.Int(u.id), Decimal.Int(v.id);
      AppendInjective("telegram|", iu + "|" + ru, "telegram|", iv + "|" + rv);
      IntHas(u.id, '|');
      IntHas(v.id, '|');
      Decimal.DelimitedSplits(iu, iv, '|', ru, rv);
      Decimal.IntInjective(u.id, v.id);
      SenderHas(u);
      SenderHas(v);
      Decimal.DelimitedSplits(Sender(u), Sender(v), '|', b, c);
      SenderInjective(u, v);
    }
  }

  // ---------------------------------------------------------------- one poll

  function InsertById(sorted: seq<Update>, u: Update): seq<Update> {
    if sorted == [] || sorted[|sorted| - 1].id <= u.id then sorted + [u]
    else InsertById(sorted[..|sorted| - 1], u) + [sorted[|sorted| - 1]]
  }

  /** `filter { it.updateId >= offset }.sortedBy { it.updateId }`. */
  function Batch(returned: seq<Update>, offset: int): seq<Update> {
    if returned == [] then []
    else
      var init, last := Batch(returned[..|returned| - 1], offset), returned[|returned| - 1];
      if last.id >= offset then InsertById(init, last) else init
  }

  /** What is written for an update before the offset moves past it. */
  function Dealt(p: Platform, s: Store, u: Update): Store
    requires p.owns(u.sender) ==> Body(u).Some?
  {
    if p.owns(u.sender) then Persist(p, s, u, Body(u).value)
    else if p.isStart(u) then s.(starts := s.starts + [u]) else s
  }

  /**
   * Dealing with a batch when `left` writes still succeed: what is stored, and whether every update
   * was dealt with.
   */
  function Process(p: Platform, s: Store, batch: seq<Update>, left: nat): (Store, bool)
    decreases batch
  {
    if batch == [] then (s, true)
    else
      var u := batch[0];
      var mine, start := p.owns(u.sender), p.isStart(u);
      if (mine && Body(u).None?) || ((mine || start) && left == 0) then (s, false)
      else
        var dealt := Dealt(p, s, u);
        var left' := if mine || start then left - 1 else left;
        if left' == 0 then (dealt, false)
        else Process(p, dealt.(offset := u.id + 1), batch[1..], left' - 1)
  }

  function Owned(p: Platform, batch: seq<Update>): nat {
    if batch == [] then 0 else (if p.owns(batch[0].sender) then 1 else 0) + Owned(p, batch[1..])
  }

  class TelegramPoller {
    const p: Platform
    var rows: map<string, Row>
    var savedOffset: int
    var starts: seq<Update>

    ghost function Now(): Store
      reads this
    {
      Store(rows, savedOffset, starts)
    }

    method StoreInbound(u: Update) returns (inserted: Option<bool>)
      modifies this`rows
      ensures inserted.None? <==> Body(u).None?
      ensures inserted.Some? ==> Now() == Persist(p, old(Now()), u, Body(u).value)
      ensures inserted == Some(true) <==> Body(u).Some? && p.blind(Material(u, Body(u).value)) !in old(rows)
      ensures inserted.None? ==> Now() == old(Now())
    {
      var body := Body(u);
      if body.None? { return None; }
      var key := p.blind(Material(u, body.value));
      if key in rows { return Some(false); }
      rows := rows[key := RowOf(u, body.value)];
      return Some(true);
    }

    /** `returned`: what the source answered. `writes`: how many writes succeed before one throws. */
    method PollOnce(returned: seq<Update>, writes: nat) returns (accepted: nat, threw: bool)
      modifies this
      ensures (Now(), !threw) == Process(p, old(Now()), Batch(returned, old(savedOffset)), writes)
      ensures !threw ==> accepted == Owned(p, Batch(returned, old(savedOffset)))
    {
      ghost var was := Now();
      accepted, threw := 0, false;
      var left := writes;
      var batch := Batch(returned, savedOffset);
      assert batch[0..] == batch;
      for i := 0 to |batch|
        invariant Process(p, Now(), batch[i..], left) == Process(p, was, batch, writes)
        invariant accepted + Owned(p, batch[i..]) == Owned(p, batch)
      {
        var u := batch[i];
        assert batch[i..][0] == u && batch[i..][1..] == batch[i + 1..];
        var mine, start := p.owns(u.sender), p.isStart(u);
        if (mine || start) && left == 0 { return accepted, true; }
        if mine {
          var inserted := StoreInbound(u);
          if inserted.None? { return accepted, true; }
          accepted := accepted + 1;
        } else if start {
          starts := starts + [u];
        }
        if mine || start { left := left - 1; }
        if left == 0 { return accepted, true; }
        left := left - 1;
        savedOffset := u.id + 1;
      }
    }

    /** Only rows still waiting change; the answer is their number. */
    method Acknowledge(ids: seq<string>, wellFormed: string -> bool) returns (r: Result<nat>)
      modifies this`rows
      ensures r.Ok? <==> 1 <= |ids| <= 50 && forall id :: id in ids ==> wellFormed(id)
      ensures r.Ok? ==> Now() == Acknowledged(old(Now()), ids) && r.value == |set k | k in old(rows) && Acks(old(Now()), ids, k)|
      ensures r.Err? ==> Now() == old(Now())
    {
      if !(1 <= |ids| <= 50) { return Err("message_ack_ids_invalid"); }
      if exists id :: id in ids && !wellFormed(id) { return Err("message_ack_id_invalid"); }
      var count := |set k | k in rows && rows[k].state == "received" && k in ids|;
      assert (set k | k in rows && rows[k].state == "received" && k in ids) == set k | k in rows && Acks(Now(), ids, k);
      rows := map k | k in rows :: if rows[k].state == "received" && k in ids then rows[k].(state := "ingested") else rows[k];
      return Ok(count);
    }
  }

  predicate Acks(s: Store, ids: seq<string>, key: string) { key in s.rows && s.rows[key].state == "received" && key in ids }

  function Acknowledged(s: Store, ids: seq<string>): Store {
    s.(rows := map k | k in s.rows :: if Acks(s, ids, k) then s.rows[k].(state := "ingested") else s.rows[k])
  }

  // ---------------------------------------------------------------- the batch

  ghost predicate Ascending(batch: seq<Update>, from: int) {
    batch == [] || (batch[0].id >= from && Ascending(batch[1..], batch[0].id))
  }

  ghost predicate SortedById(batch: seq<Update>) {
    batch == [] || (SortedById(batch[..|batch| - 1]) && forall u :: u in batch ==> u.id <= batch[|batch| - 1].id)
  }

  lemma {:induction false} InsertByIdHolds(sorted: seq<Update>, u: Update, x: Update)
    ensures x in InsertById(sorted, u) <==> x in sorted || x == u
  {
    if sorted != [] && sorted[|sorted| - 1].id > u.id {
      var init, last := sorted[..|sorted| - 1], sorted[|sorted| - 1];
      InsertByIdHolds(init, u, x);
      assert sorted == init + [last];
    }
  }

  lemma {:induction false} InsertByIdSorts(sorted: seq<Update>, u: Update)
    requires SortedById(sorted)
    ensures SortedById(InsertById(sorted, u))
  {
    var out := InsertById(sorted, u);
    if sorted == [] || sorted[|sorted| - 1].id <= u.id {
      assert out[..|out| - 1] == sorted;
    } else {
      var init, last := sorted[..|sorted| - 1], sorted[|sorted| - 1];
      InsertByIdSorts(init, u);
      assert out[..|out| - 1] == InsertById(init, u);
      forall x | x in out ensures x.id <= last.id {
        InsertByIdHolds(sorted, u, x);
      }
    }
  }

  lemma {:induction false} BatchSorts(returned: seq<Update>, offset: int)
    ensures SortedById(Batch(returned, offset))
    ensures forall u :: u in Batch(returned, offset) <==> u in returned && u.id >= offset
  {
    if returned != [] {
      var init, last := returned[..|returned| - 1], returned[|returned| - 1];
      BatchSorts(init, offset);
      InsertByIdSorts(Batch(init, offset), last);
      forall u ensures u in Batch(returned, offset) <==> u in returned && u.id >= offset {
        InsertByIdHolds(Batch(init, offset), last, u);
        assert returned == init + [last];
      }
    }
  }

  lemma {:induction false} SortedAscends(batch: seq<Update>, i: nat, from: int)
    requires SortedById(batch) && i <= |batch| && (i < |batch| ==> from <= batch[i].id)
    ensures Ascending(batch[i..], from)
    decreases |batch| - i
  {
    if i < |batch| {
      if i + 1 < |batch| { SortedAt(batch, i, i + 1); }
      SortedAscends(batch, i + 1, batch[i].id);
      assert batch[i..][1..] == batch[i + 1..];
    }
  }

  lemma {:induction false} SortedAt(batch: seq<Update>, i: nat, j: nat)
    requires SortedById(batch) && i <= j < |batch|
    ensures batch[i].id <= batch[j].id
  {
    if j < |batch| - 1 {
      SortedAt(batch[..|batch| - 1], i, j);
    } else {
      assert batch[i] in batch;
    }
  }

  lemma BatchAscends(returned: seq<Update>, offset: int)
    ensures Ascending(Batch(returned, offset), offset)
  {
    var batch := Batch(returned, offset);
    BatchSorts(returned, offset);
    if batch != [] { assert batch[0] in batch; }
    SortedAscends(batch, 0, offset);
    assert batch[0..] == batch;
  }

  /** Whatever the source returns and whatever fails, the saved offset never decreases. */
  lemma {:induction false} ProcessNeverGoesBack(p: Platform, s: Store, batch: seq<Update>, left: nat)
    requires Ascending(batch, s.offset) || (batch != [] && Ascending(batch, s.offset - 1))
    ensures Process(p, s, batch, left).0.offset >= s.offset
    ensures forall k :: k in s.rows ==> k in Process(p, s, batch, left).0.rows && Process(p, s, batch, left).0.rows[k] == s.rows[k]
    decreases batch
  {
    if batch != [] {
      var u := batch[0];
      var mine, start := p.owns(u.sender), p.isStart(u);
      if !((mine && Body(u).None?) || ((mine || start) && left == 0)) {
        var dealt := Dealt(p, s, u);
        var left' := if mine || start then left - 1 else left;
        if left' > 0 { ProcessNeverGoesBack(p, dealt.(offset := u.id + 1), batch[1..], left' - 1); }
      }
    }
  }

  // ---------------------------------------------------------------- runs against a server

  /** The server's log; polls, failures at any write, and acknowledgements. */
  datatype World = World(log: seq<Update>, store: Store)

  datatype Op =
    | Arrive(update: Update)
    | Poll(returned: seq<Update>, writes: nat)
    | Ack(ids: seq<string>)

  predicate Precedes(v: Update, u: Update) { v.id < u.id }

  /** A poll returns logged updates, none twice, and leaves out none it should have returned first. */
  ghost predicate Answers(log: seq<Update>, offset: int, returned: seq<Update>) {
    && (forall u :: u in returned ==> u in log)
    && NoRepeats(returned)
    && (forall u, v {:trigger Precedes(v, u)} :: u in returned && v in log && offset <= v.id && Precedes(v, u) ==> v in returned)
  }

  ghost predicate Allowed(w: World, op: Op) {
    match op
    case Arrive(u) => u.id >= 0 && forall v :: v in w.log ==> v.id < u.id
    case Poll(returned, _) => Answers(w.log, w.store.offset, returned)
    case Ack(_) => true
  }

  function Step(p: Platform, w: World, op: Op): World {
    match op
    case Arrive(u) => w.(log := w.log + [u])
    case Poll(returned, writes) => w.(store := Process(p, w.store, Batch(returned, w.store.offset), writes).0)
    case Ack(ids) => w.(store := Acknowledged(w.store, ids))
  }

  ghost predicate AllAllowed(p: Platform, w: World, ops: seq<Op>)
    decreases ops
  {
    ops == [] || (Allowed(w, ops[0]) && AllAllowed(p, Step(p, w, ops[0]), ops[1..]))
  }

  function RunAll(p: Platform, w: World, ops: seq<Op>): World
    decreases ops
  {
    if ops == [] then w else RunAll(p, Step(p, w, ops[0]), ops[1..])
  }

  ghost predicate HasRow(p: Platform, s: Store, u: Update) {
    && Body(u).Some?
    && var key := p.blind(Material(u, Body(u).value));
       key in s.rows && s.rows[key] == RowOf(u, Body(u).value).(state := s.rows[key].state)
  }

  /** No owner update below the offset is without its row. */
  ghost predicate Behind(p: Platform, s: Store, u: Update) { p.owns(u.sender) && u.id < s.offset ==> HasRow(p, s, u) }

  /** Each row is that of an owner update of the log. */
  ghost predicate Founded(p: Platform, w: World, key: string) {
    key in w.store.rows ==>
      exists u :: u in w.log && p.owns(u.sender) && Body(u).Some? && key == p.blind(Material(u, Body(u).value)) && HasRow(p, w.store, u)
  }

  predicate Apart(u: Update, v: Update) { u.id == v.id ==> u == v }

  ghost predicate DistinctIds(log: seq<Update>) {
    forall u, v {:trigger Apart(u, v)} :: u in log && v in log ==> Apart(u, v)
  }

  ghost predicate OffsetFounded(w: World) {
    w.store.offset <= 0 || exists v :: v in w.log && v.id + 1 == w.store.offset
  }

  ghost predicate Inv(p: Platform, w: World) {
    && DistinctIds(w.log)
    && OffsetFounded(w)
    && (forall u {:trigger Behind(p, w.store, u)} :: u in w.log ==> Behind(p, w.store, u))
    && (forall key :: Founded(p, w, key))
  }

  predicate SameIndex(p: Platform, a: string, b: string) { p.blind(a) == p.blind(b) }

  ghost predicate BlindIsInjective(p: Platform) { forall a, b :: SameIndex(p, a, b) ==> a == b }

  /** The updates of the log that still have to be dealt with, from the offset up to the batch's end, are in the batch. */
  ghost predicate Complete(log: seq<Update>, offset: int, batch: seq<Update>) {
    && (forall u :: u in batch ==> u in log && u.id >= offset)
    && (forall u, v {:trigger Precedes(v, u)} :: u in batch && v in log && offset <= v.id && Precedes(v, u) ==> v in batch)
  }

  ghost predicate NoRepeats(batch: seq<Update>) { forall i, j :: 0 <= i < j < |batch| ==> batch[i].id != batch[j].id }

  ghost predicate StrictlyAscending(batch: seq<Update>) {
    batch == [] || ((forall u :: u in batch[1..] ==> batch[0].id < u.id) && StrictlyAscending(batch[1..]))
  }

  lemma PersistGivesRow(p: Platform, w: World, u: Update)
    requires BlindIsInjective(p) && Inv(p, w) && u in w.log && p.owns(u.sender) && Body(u).Some?
    ensures Inv(p, w.(store := Persist(p, w.store, u, Body(u).value)))
    ensures HasRow(p, Persist(p, w.store, u, Body(u).value), u)
  {
    var body := Body(u).value;
    var key := p.blind(Material(u, body));
    var t := w.(store := Persist(p, w.store, u, body));
    if key in w.store.rows {
      assert Founded(p, w, key);
      var v :| v in w.log && Body(v).Some? && key == p.blind(Material(v, Body(v).value)) && HasRow(p, w.store, v);
      assert SameIndex(p, Material(u, body), Material(v, Body(v).value));
      MaterialInjective(u, body, v, Body(v).value);
      assert Apart(u, v);
    } else {
      assert t.store.rows[key] == RowOf(u, body).(state := t.store.rows[key].state);
      assert HasRow(p, t.store, u);
    }
    forall v | v in t.log ensures Behind(p, t.store, v) {
      assert Behind(p, w.store, v);
    }
    forall k ensures Founded(p, t, k) {
      assert Founded(p, w, k);
      if k in w.store.rows {
        var v :| v in w.log && p.owns(v.sender) && Body(v).Some? && k == p.blind(Material(v, Body(v).value)) && HasRow(p, w.store, v);
        assert HasRow(p, t.store, v);
      }
    }
  }

  lemma OffsetMoves(p: Platform, w: World, u: Update)
    requires Inv(p, w) && u in w.log && (p.owns(u.sender) ==> HasRow(p, w.store, u))
    requires forall v :: v in w.log && v.id < u.id ==> v.id < w.store.offset
    ensures Inv(p, w.(store := w.store.(offset := u.id + 1)))
  {
    var t := w.(store := w.store.(offset := u.id + 1));
    forall v | v in t.log ensures Behind(p, t.store, v) {
      assert Behind(p, w.store, v);
      assert Apart(v, u);
    }
    forall k ensures Founded(p, t, k) {
      assert Founded(p, w, k);
      if k in w.store.rows {
        var v :| v in w.log && p.owns(v.sender) && Body(v).Some? && k == p.blind(Material(v, Body(v).value)) && HasRow(p, w.store, v);
        assert HasRow(p, t.store, v);
      }
    }
  }

  lemma StartsDoNotMatter(p: Platform, w: World, starts: seq<Update>)
    requires Inv(p, w)
    ensures Inv(p, w.(store := w.store.(starts := starts)))
  {
    var t := w.(store := w.store.(starts := starts));
    forall v | v in t.log ensures Behind(p, t.store, v) { assert Behind(p, w.store, v); }
    forall k ensures Founded(p, t, k) {
      assert Founded(p, w, k);
      if k in w.store.rows {
        var v :| v in w.log && p.owns(v.sender) && Body(v).Some? && k == p.blind(Material(v, Body(v).value)) && HasRow(p, w.store, v);
        assert HasRow(p, t.store, v);
      }
    }
  }

  lemma DealtKeeps(p: Platform, w: World, u: Update)
    requires BlindIsInjective(p) && Inv(p, w) && u in w.log && (p.owns(u.sender) ==> Body(u).Some?)
    ensures var t := Dealt(p, w.store, u);
            Inv(p, w.(store := t)) && t.offset == w.store.offset && (p.owns(u.sender) ==> HasRow(p, t, u))
  {
    if p.owns(u.sender) { PersistGivesRow(p, w, u); }
    else if p.isStart(u) { StartsDoNotMatter(p, w, w.store.starts + [u]); }
  }

  /** Nothing of the log lies between the offset and the first update of a complete batch. */
  lemma FirstIsNext(log: seq<Update>, offset: int, batch: seq<Update>, v: Update)
    requires Complete(log, offset, batch) && StrictlyAscending(batch) && batch != []
    requires v in log && v.id < batch[0].id
    ensures v.id < offset
  {
    var u, rest := batch[0], batch[1..];
    assert batch == [u] + rest;
    assert u in batch && Precedes(v, u);
    assert v in batch ==> v == u || v in rest;
  }

  lemma {:induction false} ProcessKeeps(p: Platform, w: World, batch: seq<Update>, left: nat)
    requires BlindIsInjective(p) && Inv(p, w)
    requires Complete(w.log, w.store.offset, batch) && StrictlyAscending(batch)
    ensures Inv(p, w.(store := Process(p, w.store, batch, left).0))
    decreases batch
  {
    if batch == [] { return; }
    var u := batch[0];
    assert u in batch;
    var mine, start := p.owns(u.sender), p.isStart(u);
    if (mine && Body(u).None?) || ((mine || start) && left == 0) { return; }
    DealtKeeps(p, w, u);
    var dealt := w.(store := Dealt(p, w.store, u));
    var left' := if mine || start then left - 1 else left;
    if left' == 0 { return; }
    forall v | v in w.log && v.id < u.id ensures v.id < w.store.offset {
      FirstIsNext(w.log, w.store.offset, batch, v);
    }
    OffsetMoves(p, dealt, u);
    RestIsComplete(w.log, w.store.offset, batch);
    ProcessKeeps(p, dealt.(store := dealt.store.(offset := u.id + 1)), batch[1..], left' - 1);
  }

  lemma RestIsComplete(log: seq<Update>, offset: int, batch: seq<Update>)
    requires Complete(log, offset, batch) && StrictlyAscending(batch) && batch != []
    ensures Complete(log, batch[0].id + 1, batch[1..]) && StrictlyAscending(batch[1..])
  {
    var first, rest := batch[0], batch[1..];
    assert batch == [first] + rest && first in batch;
    forall u, v | u in rest && v in log && first.id + 1 <= v.id && Precedes(v, u) ensures v in rest {
      assert v in batch;
    }
  }

  lemma {:induction false} DistinctAscends(batch: seq<Update>, i: nat)
    requires SortedById(batch) && i <= |batch|
    requires NoRepeats(batch)
    ensures StrictlyAscending(batch[i..])
    decreases |batch| - i
  {
    if i < |batch| {
      DistinctAscends(batch, i + 1);
      var tail := batch[i..];
      assert tail[1..] == batch[i + 1..] && tail[0] == batch[i];
      forall u | u in tail[1..] ensures tail[0].id < u.id {
        var k :| 0 <= k < |tail[1..]| && tail[1..][k] == u;
        SortedAt(batch, i, i + 1 + k);
      }
    }
  }

  lemma {:induction false} InsertKeepsDistinct(sorted: seq<Update>, u: Update)
    requires NoRepeats(sorted)
    requires forall x :: x in sorted ==> x.id != u.id
    ensures NoRepeats(InsertById(sorted, u))
    ensures forall x :: x in InsertById(sorted, u) ==> x in sorted || x == u
  {
    if sorted != [] && sorted[|sorted| - 1].id > u.id {
      var init, last := sorted[..|sorted| - 1], sorted[|sorted| - 1];
      InsertKeepsDistinct(init, u);
      var out, inner := InsertById(sorted, u), InsertById(init, u);
      assert out == inner + [last];
      assert last in sorted;
      forall a, b | 0 <= a < b < |out| ensures out[a].id != out[b].id {
        if b == |out| - 1 {
          assert inner[a] in inner;
          if inner[a] != u {
            var k :| 0 <= k < |init| && init[k] == inner[a];
            assert sorted[k].id != sorted[|sorted| - 1].id;
          }
        }
      }
    }
  }

  lemma {:induction false} BatchIsDistinct(returned: seq<Update>, offset: int)
    requires NoRepeats(returned)
    ensures NoRepeats(Batch(returned, offset))
  {
    if returned != [] {
      var init, last := returned[..|returned| - 1], returned[|returned| - 1];
      BatchIsDistinct(init, offset);
      BatchSorts(init, offset);
      forall x | x in Batch(init, offset) ensures x.id != last.id {
        var k :| 0 <= k < |init| && init[k] == x;
        assert returned[k].id != returned[|returned| - 1].id;
      }
      InsertKeepsDistinct(Batch(init, offset), last);
    }
  }

  lemma PollKeeps(p: Platform, w: World, returned: seq<Update>, writes: nat)
    requires BlindIsInjective(p) && Inv(p, w) && Answers(w.log, w.store.offset, returned)
    ensures Inv(p, Step(p, w, Poll(returned, writes)))
    ensures Step(p, w, Poll(returned, writes)).store.offset >= w.store.offset
  {
    var batch := Batch(returned, w.store.offset);
    BatchSorts(returned, w.store.offset);
    BatchIsDistinct(returned, w.store.offset);
    DistinctAscends(batch, 0);
    assert batch[0..] == batch;
    ProcessKeeps(p, w, batch, writes);
    BatchAscends(returned, w.store.offset);
    ProcessNeverGoesBack(p, w.store, batch, writes);
  }

  lemma AckKeeps(p: Platform, w: World, ids: seq<string>)
    requires Inv(p, w)
    ensures Inv(p, Step(p, w, Ack(ids)))
  {
    var t := Step(p, w, Ack(ids));
    forall u | HasRow(p, w.store, u) ensures HasRow(p, t.store, u) {
    }
    forall v | v in t.log ensures Behind(p, t.store, v) { assert Behind(p, w.store, v); }
    forall k ensures Founded(p, t, k) {
      assert Founded(p, w, k);
      if k in w.store.rows {
        var v :| v in w.log && p.owns(v.sender) && Body(v).Some? && k == p.blind(Material(v, Body(v).value)) && HasRow(p, w.store, v);
        assert HasRow(p, t.store, v);
      }
    }
  }

  lemma ArriveKeeps(p: Platform, w: World, u: Update)
    requires Inv(p, w) && Allowed(w, Arrive(u))
    ensures Inv(p, Step(p, w, Arrive(u)))
  {
    var t := Step(p, w, Arrive(u));
    if w.store.offset > 0 {
      var last :| last in w.log && last.id + 1 == w.store.offset;
      assert last in t.log;
    }
    forall v | v in t.log ensures Behind(p, t.store, v) {
      if v in w.log { assert Behind(p, w.store, v); }
    }
    forall k ensures Founded(p, t, k) {
      assert Founded(p, w, k);
      if k in w.store.rows {
        var v :| v in w.log && p.owns(v.sender) && Body(v).Some? && k == p.blind(Material(v, Body(v).value)) && HasRow(p, w.store, v);
        assert v in t.log && HasRow(p, t.store, v);
      }
    }
  }

  lemma StepKeeps(p: Platform, w: World, op: Op)
    requires BlindIsInjective(p) && Inv(p, w) && Allowed(w, op)
    ensures Inv(p, Step(p, w, op)) && Step(p, w, op).store.offset >= w.store.offset
  {
    match op
    case Arrive(u) => ArriveKeeps(p, w, u);
    case Poll(returned, writes) => PollKeeps(p, w, returned, writes);
    case Ack(ids) => AckKeeps(p, w, ids);
  }

  const START := World([], Store(map[], 0, []))

  lemma StartIsSound(p: Platform)
    ensures Inv(p, START)
  {
    assert forall key :: Founded(p, START, key);
  }

  /** The updates that have their row. */
  ghost function Stored(p: Platform, w: World): set<Update> {
    set u | u in w.log && p.owns(u.sender) && HasRow(p, w.store, u)
  }

  function KeyOf(p: Platform, u: Update): string
    requires Body(u).Some?
  {
    p.blind(Material(u, Body(u).value))
  }

  function KeysOf(p: Platform, updates: set<Update>): set<string>
    requires forall u :: u in updates ==> Body(u).Some?
  {
    set u | u in updates :: KeyOf(p, u)
  }

  lemma KeysOfMore(p: Platform, rest: set<Update>, u: Update)
    requires BlindIsInjective(p) && Body(u).Some? && u !in rest
    requires forall v :: v in rest ==> Body(v).Some? && v.id != u.id
    ensures KeyOf(p, u) !in KeysOf(p, rest) && KeysOf(p, rest + {u}) == KeysOf(p, rest) + {KeyOf(p, u)}
  {
    forall v | v in rest ensures KeyOf(p, v) != KeyOf(p, u) {
      MaterialInjective(u, Body(u).value, v, Body(v).value);
      assert SameIndex(p, Material(v, Body(v).value), Material(u, Body(u).value)) ==> false;
    }
  }

  lemma {:induction false} ImageSize(p: Platform, updates: set<Update>)
    requires BlindIsInjective(p)
    requires forall u :: u in updates ==> Body(u).Some?
    requires forall u, v {:trigger Apart(u, v)} :: u in updates && v in updates ==> Apart(u, v)
    ensures |KeysOf(p, updates)| == |updates|
  {
    if updates != {} {
      var u :| u in updates;
      var rest := updates - {u};
      ImageSize(p, rest);
      assert forall v :: v in rest ==> Apart(v, u);
      KeysOfMore(p, rest, u);
      assert updates == rest + {u};
    }
  }

  /** After any run: the rows are those of stored updates, exactly one for each. */
  lemma OneRowPerUpdate(p: Platform, w: World)
    requires BlindIsInjective(p) && Inv(p, w)
    ensures |w.store.rows.Keys| == |Stored(p, w)|
    ensures w.store.rows.Keys == KeysOf(p, Stored(p, w))
  {
    var stored := Stored(p, w);
    var keys := KeysOf(p, stored);
    forall key | key in w.store.rows ensures key in keys {
      assert Founded(p, w, key);
      var u :| u in w.log && p.owns(u.sender) && Body(u).Some? && key == p.blind(Material(u, Body(u).value)) && HasRow(p, w.store, u);
      assert u in stored && key == KeyOf(p, u);
    }
    assert w.store.rows.Keys == keys;
    ImageSize(p, stored);
  }

  /**
   * Over any run of arrivals, polls failing at any write, repeats and acknowledgements: the saved
   * offset never decreases, every owner update below it has its row, and there is exactly one row for
   * each stored update.
   */
  lemma {:induction false} IntakeLosesNothing(p: Platform, w: World, ops: seq<Op>)
    requires BlindIsInjective(p) && Inv(p, w) && AllAllowed(p, w, ops)
    ensures var end := RunAll(p, w, ops);
            && Inv(p, end) && end.store.offset >= w.store.offset
            && (forall u :: u in end.log && p.owns(u.sender) && u.id < end.store.offset ==> u in Stored(p, end))
            && |end.store.rows.Keys| == |Stored(p, end)|
    decreases ops
  {
    if ops == [] {
      OneRowPerUpdate(p, w);
      forall u | u in w.log && p.owns(u.sender) && u.id < w.store.offset ensures u in Stored(p, w) {
        assert Behind(p, w.store, u);
      }
    } else {
      StepKeeps(p, w, ops[0]);
      IntakeLosesNothing(p, Step(p, w, ops[0]), ops[1..]);
    }
  }

  // ---------------------------------------------------------------- sources that repeat an identifier

  predicate IsStored(p: Platform, s: Store, u: Update) { Body(u).Some? && KeyOf(p, u) in s.rows }

  /** The row of `v` would be that of `u`. */
  predicate SameRow(u: Update, v: Update) {
    Body(u).Some? && Body(v).Some? && Material(u, Body(u).value) == Material(v, Body(v).value)
  }

  /** An owner update without any content stops every poll that reaches it. */
  predicate Blocks(p: Platform, u: Update) { p.owns(u.sender) && Body(u).None? }

  /** The offset has moved past an owner update that has no row. */
  predicate PassedUnstored(p: Platform, s: Store, u: Update) {
    p.owns(u.sender) && u.id < s.offset && !IsStored(p, s, u)
  }

  /**
   * Reachable element `i` shares the identifier of the owner update `j` after it, and neither the store
   * nor the elements up to `i` have its row.
   */
  predicate Overtakes(p: Platform, s: Store, batch: seq<Update>, i: nat, j: nat) {
    && i < j < |batch| && batch[i].id == batch[j].id && p.owns(batch[j].sender)
    && !IsStored(p, s, batch[j])
    && forall k :: 0 <= k <= i ==> !Blocks(p, batch[k]) && !(p.owns(batch[k].sender) && SameRow(batch[k], batch[j]))
  }

  /** The steps that dealing with an update takes: its own write, if it has one, and that of the offset. */
  function Cost(p: Platform, u: Update): nat { if p.owns(u.sender) || p.isStart(u) then 2 else 1 }

  /** How many steps dealing with the whole list takes. */
  function Writes(p: Platform, batch: seq<Update>): nat {
    if batch == [] then 0
    else Cost(p, batch[0]) + Writes(p, batch[1..])
  }

  lemma DealtKeepsRows(p: Platform, s: Store, u: Update, v: Update)
    requires BlindIsInjective(p) && (p.owns(u.sender) ==> Body(u).Some?)
    ensures var t := Dealt(p, s, u);
            && t.offset == s.offset
            && (IsStored(p, t, v) <==> IsStored(p, s, v) || (p.owns(u.sender) && SameRow(u, v)))
  {
    if p.owns(u.sender) && Body(v).Some? {
      assert SameIndex(p, Material(u, Body(u).value), Material(v, Body(v).value)) <==> KeyOf(p, u) == KeyOf(p, v);
    }
  }

  lemma ProcessUnfolds(p: Platform, s: Store, batch: seq<Update>, left: nat)
    requires batch != [] && !Blocks(p, batch[0])
    requires left >= Cost(p, batch[0])
    ensures Process(p, s, batch, left)
         == Process(p, Dealt(p, s, batch[0]).(offset := batch[0].id + 1), batch[1..], left - Cost(p, batch[0]))
  {
  }

  /** Spending exactly the writes of the elements up to `i` passes `i` and stores nothing later. */
  lemma {:induction false} OvertakingRuns(p: Platform, s: Store, batch: seq<Update>, i: nat, j: nat)
    requires BlindIsInjective(p) && Overtakes(p, s, batch, i, j)
    ensures PassedUnstored(p, Process(p, s, batch, Writes(p, batch[..i + 1])).0, batch[j])
    decreases i
  {
    var u, rest := batch[0], batch[1..];
    var s' := Dealt(p, s, u).(offset := u.id + 1);
    var left := Writes(p, batch[..i + 1]);
    assert !Blocks(p, u) && !(p.owns(u.sender) && SameRow(u, batch[j]));
    assert batch[..i + 1][0] == u && batch[..i + 1][1..] == rest[..i];
    DealtKeepsRows(p, s, u, batch[j]);
    ProcessUnfolds(p, s, batch, left);
    assert rest[j - 1] == batch[j];
    if i == 0 {
      assert rest[..0] == [];
      SpentStoresNothing(p, s', rest);
    } else {
      forall k | 0 <= k <= i - 1
        ensures !Blocks(p, rest[k]) && !(p.owns(rest[k].sender) && SameRow(rest[k], rest[j - 1]))
      {
        assert rest[k] == batch[k + 1];
      }
      assert Overtakes(p, s', rest, i - 1, j - 1);
      OvertakingRuns(p, s', rest, i - 1, j - 1);
    }
  }

  lemma SpentStoresNothing(p: Platform, s: Store, batch: seq<Update>)
    ensures var t := Process(p, s, batch, 0).0; t.rows == s.rows && t.offset == s.offset
  {
  }

  /** A poll that passes a later update has fully dealt with the first. */
  lemma FirstWasDealt(p: Platform, s: Store, batch: seq<Update>, left: nat, v: Update)
    requires batch != [] && s.offset <= v.id && PassedUnstored(p, Process(p, s, batch, left).0, v)
    ensures !Blocks(p, batch[0]) && left >= Cost(p, batch[0])
    ensures Process(p, s, batch, left)
         == Process(p, Dealt(p, s, batch[0]).(offset := batch[0].id + 1), batch[1..], left - Cost(p, batch[0]))
  {
  }

  lemma OvertakesLater(p: Platform, s: Store, s': Store, batch: seq<Update>, i: nat, j: nat)
    requires 0 < j < |batch| && Overtakes(p, s', batch[1..], i, j - 1)
    requires !Blocks(p, batch[0]) && batch[0].id != batch[j].id && !IsStored(p, s, batch[j])
    ensures Overtakes(p, s, batch, i + 1, j)
  {
    var rest := batch[1..];
    assert rest[j - 1] == batch[j] && rest[i] == batch[i + 1];
    MaterialNamesTheUpdate(batch[0], batch[j]);
    forall k | 0 <= k <= i + 1
      ensures !Blocks(p, batch[k]) && !(p.owns(batch[k].sender) && SameRow(batch[k], batch[j]))
    {
      if k > 0 { assert batch[k] == rest[k - 1]; }
    }
  }

  /** An owner update can only be passed unstored by an earlier element of its identifier. */
  lemma {:induction false} PassedIsOvertaken(p: Platform, s: Store, batch: seq<Update>, from: int, left: nat, j: nat)
    returns (i: nat)
    requires BlindIsInjective(p) && Ascending(batch, from) && j < |batch| && s.offset <= batch[j].id
    requires PassedUnstored(p, Process(p, s, batch, left).0, batch[j])
    ensures Overtakes(p, s, batch, i, j)
    decreases batch
  {
    var u, rest := batch[0], batch[1..];
    FirstWasDealt(p, s, batch, left, batch[j]);
    var s' := Dealt(p, s, u).(offset := u.id + 1);
    DealtKeepsRows(p, s, u, batch[j]);
    RowsStay(p, s', rest, left - Cost(p, u), batch[j]);
    if batch[j].id == u.id {
      i := 0;
    } else {
      assert rest[j - 1] == batch[j];
      AscendingAt(batch, from, j);
      var i' := PassedIsOvertaken(p, s', rest, u.id, left - Cost(p, u), j - 1);
      OvertakesLater(p, s, s', batch, i', j);
      i := i' + 1;
    }
  }

  lemma MaterialNamesTheUpdate(u: Update, v: Update)
    ensures SameRow(u, v) ==> u.id == v.id
  {
    if SameRow(u, v) { MaterialInjective(u, Body(u).value, v, Body(v).value); }
  }

  lemma {:induction false} AscendingAt(batch: seq<Update>, from: int, j: nat)
    requires Ascending(batch, from) && j < |batch|
    ensures from <= batch[j].id && batch[0].id <= batch[j].id
    decreases batch
  {
    if j > 0 { AscendingAt(batch[1..], batch[0].id, j - 1); }
  }

  lemma {:induction false} RowsStay(p: Platform, s: Store, batch: seq<Update>, left: nat, u: Update)
    ensures IsStored(p, s, u) ==> IsStored(p, Process(p, s, batch, left).0, u)
    decreases batch
  {
    if batch != [] && !Blocks(p, batch[0]) {
      if left >= Cost(p, batch[0]) {
        ProcessUnfolds(p, s, batch, left);
        RowsStay(p, Dealt(p, s, batch[0]).(offset := batch[0].id + 1), batch[1..], left - Cost(p, batch[0]), u);
      }
    }
  }

  /** Some failure makes the poll move the offset past element `j` without its row. */
  ghost predicate MayPassUnstored(p: Platform, s: Store, batch: seq<Update>, j: nat)
    requires j < |batch|
  {
    exists left: nat :: PassedUnstored(p, Process(p, s, batch, left).0, batch[j])
  }

  ghost predicate IsOvertaken(p: Platform, s: Store, batch: seq<Update>, j: nat) {
    exists i: nat :: Overtakes(p, s, batch, i, j)
  }

  /**
   * Whatever a source returns: a failure can make the poll pass an owner update without storing it if
   * and only if an earlier element of the batch, reached by the poll, has the same identifier and is
   * not the same message, and the row is not there already.
   */
  lemma PassesUnstoredExactlyWhen(p: Platform, s: Store, returned: seq<Update>, j: nat)
    requires BlindIsInjective(p) && j < |Batch(returned, s.offset)|
    ensures MayPassUnstored(p, s, Batch(returned, s.offset), j) <==> IsOvertaken(p, s, Batch(returned, s.offset), j)
  {
    BatchAscends(returned, s.offset);
    AscendingAt(Batch(returned, s.offset), s.offset, j);
    MayPassMeansOvertaken(p, s, Batch(returned, s.offset), j);
  }

  lemma MayPassMeansOvertaken(p: Platform, s: Store, batch: seq<Update>, j: nat)
    requires BlindIsInjective(p) && j < |batch| && Ascending(batch, s.offset) && s.offset <= batch[j].id
    ensures MayPassUnstored(p, s, batch, j) <==> IsOvertaken(p, s, batch, j)
  {
    if MayPassUnstored(p, s, batch, j) {
      var left: nat :| PassedUnstored(p, Process(p, s, batch, left).0, batch[j]);
      var i := PassedIsOvertaken(p, s, batch, s.offset, left, j);
    }
    if IsOvertaken(p, s, batch, j) {
      var i: nat :| Overtakes(p, s, batch, i, j);
      OvertakingRuns(p, s, batch, i, j);
    }
  }

  /** A source that returned two owner updates under one identifier could lose the second. */
  lemma SharedIdentifierLosesUpdate(p: Platform, s: Store, u: Update, v: Update)
    requires BlindIsInjective(p) && p.owns(u.sender) && p.owns(v.sender) && u.id == v.id >= s.offset
    requires Body(u).Some? && Body(v).Some? && Material(u, Body(u).value) != Material(v, Body(v).value)
    requires KeyOf(p, v) !in s.rows
    ensures var t := Process(p, s, Batch([u, v], s.offset), 2).0;
            v.id < t.offset && KeyOf(p, v) !in t.rows
  {
    var one, two := [u], [u, v];
    assert one[..|one| - 1] == [] && two[..|two| - 1] == one;
    assert Batch(one, s.offset) == InsertById([], u) == [] + [u];
    assert Batch(two, s.offset) == [u] + [v];
    var batch := [u] + [v];
    assert batch[1..] == [v];
    var stored := Persist(p, s, u, Body(u).value);
    assert !SameIndex(p, Material(u, Body(u).value), Material(v, Body(v).value));
    assert Process(p, s, batch, 2) == Process(p, stored.(offset := u.id + 1), [v], 0);
  }

  // ---------------------------------------------------------------- what one poll leaves
  /** The updates with one identifier, in their order. */
  function OfId(updates: seq<Update>, id: int): seq<Update> {
    if updates == [] then []
    else
      var init, last := OfId(updates[..|updates| - 1], id), updates[|updates| - 1];
      if last.id == id then init + [last] else init
  }

  lemma OfIdSnoc(updates: seq<Update>, u: Update, id: int)
    ensures OfId(updates + [u], id) == if u.id == id then OfId(updates, id) + [u] else OfId(updates, id)
  {
    assert (updates + [u])[..|updates|] == updates;
  }

  lemma {:induction false} InsertByIdIsStable(sorted: seq<Update>, u: Update, id: int)
    requires SortedById(sorted)
    ensures OfId(InsertById(sorted, u), id) == if u.id == id then OfId(sorted, id) + [u] else OfId(sorted, id)
  {
    if sorted == [] || sorted[|sorted| - 1].id <= u.id {
      OfIdSnoc(sorted, u, id);
    } else {
      var init, last := sorted[..|sorted| - 1], sorted[|sorted| - 1];
      InsertByIdIsStable(init, u, id);
      OfIdSnoc(InsertById(init, u), last, id);
    }
  }

  /** The batch keeps every update from the offset on, as often as it came, and the order of those with one identifier. */
  lemma {:induction false} BatchIsStable(returned: seq<Update>, offset: int, id: int)
    ensures OfId(Batch(returned, offset), id) == if id >= offset then OfId(returned, id) else []
  {
    if returned != [] {
      var init, last := returned[..|returned| - 1], returned[|returned| - 1];
      BatchIsStable(init, offset, id);
      BatchSorts(init, offset);
      if last.id >= offset { InsertByIdIsStable(Batch(init, offset), last, id); }
    }
  }

  /** An update's body: its text, or its voice file under a prefix. */
  ghost predicate IsBody(u: Update, body: string) {
    u.text == Some(body) || (u.text == None && u.voice.Some? && body == "voice:" + u.voice.value)
  }

  /** The row is that of this update, whatever has become of its state. */
  ghost predicate IsRowOf(u: Update, row: Row) {
    && row.channel == "telegram" && row.direction == "inbound" && row.sentAtMs == u.sentAtMs
    && row.sender == Decimal.Int(u.sender) + ":" + Decimal.Int(u.chat) && IsBody(u, row.body)
  }

  lemma RowSaysTheUpdate(p: Platform, s: Store, u: Update)
    requires HasRow(p, s, u)
    ensures IsRowOf(u, s.rows[p.blind(Material(u, Body(u).value))])
  {
  }

  /** The starts of strangers among the updates, in order. */
  function StartsOf(p: Platform, batch: seq<Update>): seq<Update> {
    if batch == [] then []
    else (if !p.owns(batch[0].sender) && p.isStart(batch[0]) then [batch[0]] else []) + StartsOf(p, batch[1..])
  }

  /** This row is the new row of an owner update of the list. */
  ghost predicate IsNewRow(p: Platform, batch: seq<Update>, key: string, row: Row) {
    row.state == "received"
    && exists u :: u in batch && p.owns(u.sender) && Body(u).Some? && key == KeyOf(p, u) && IsRowOf(u, row)
  }

  /** Rows stay as they were; any other row is the new row of an owner update of the list. */
  ghost predicate RowsExplained(p: Platform, s: Store, t: Store, batch: seq<Update>) {
    && (forall key :: key in s.rows ==> key in t.rows && t.rows[key] == s.rows[key])
    && (forall key :: key in t.rows && key !in s.rows ==> IsNewRow(p, batch, key, t.rows[key]))
  }

  /** The updates of `batch` have been dealt with; if `next` is one, its own write may have been done too. */
  ghost predicate Done(p: Platform, s: Store, t: Store, batch: seq<Update>, next: seq<Update>) {
    && t.offset == (if batch == [] then s.offset else batch[|batch| - 1].id + 1)
    && (forall u :: u in batch && p.owns(u.sender) ==> IsStored(p, t, u))
    && RowsExplained(p, s, t, batch + next)
    && (t.starts == s.starts + StartsOf(p, batch) || t.starts == s.starts + StartsOf(p, batch) + StartsOf(p, next))
  }

  lemma OneDealt(p: Platform, s: Store, u: Update)
    requires !Blocks(p, u)
    ensures var t := Dealt(p, s, u);
            && t.offset == s.offset && t.starts == s.starts + StartsOf(p, [u])
            && (p.owns(u.sender) ==> IsStored(p, t, u)) && RowsExplained(p, s, t, [u])
  {
    assert [u][1..] == [] && [u][0] == u;
    var t := Dealt(p, s, u);
    assert u in [u];
    assert StartsOf(p, [u]) == (if !p.owns(u.sender) && p.isStart(u) then [u] else []);
  }

  lemma RowsExplainedTwice(p: Platform, s: Store, m: Store, t: Store, a: seq<Update>, b: seq<Update>)
    requires RowsExplained(p, s, m, a) && RowsExplained(p, m, t, b)
    ensures RowsExplained(p, s, t, a + b)
  {
    forall key | key in t.rows && key !in s.rows ensures IsNewRow(p, a + b, key, t.rows[key]) {
      if key in m.rows {
        var u :| u in a && p.owns(u.sender) && Body(u).Some? && key == KeyOf(p, u) && IsRowOf(u, m.rows[key]);
        assert u in a + b;
      } else {
        var u :| u in b && p.owns(u.sender) && Body(u).Some? && key == KeyOf(p, u) && IsRowOf(u, t.rows[key]);
        assert u in a + b;
      }
    }
  }

  lemma StartsOfCons(p: Platform, u: Update, rest: seq<Update>)
    ensures StartsOf(p, [u] + rest) == StartsOf(p, [u]) + StartsOf(p, rest)
  {
    assert ([u] + rest)[1..] == rest && [u][1..] == [];
  }

  lemma StartsAdd(a: seq<Update>, b: seq<Update>, c: seq<Update>, d: seq<Update>)
    ensures a + b + c == a + (b + c) && a + b + c + d == a + (b + c) + d
  {
  }

  lemma StoredCons(p: Platform, m: Store, t: Store, u: Update, done: seq<Update>)
    requires p.owns(u.sender) ==> IsStored(p, m, u)
    requires forall key :: key in m.rows ==> key in t.rows
    requires forall v :: v in done && p.owns(v.sender) ==> IsStored(p, t, v)
    ensures forall v :: v in [u] + done && p.owns(v.sender) ==> IsStored(p, t, v)
  {
  }

  lemma DoneCons(p: Platform, s: Store, m: Store, t: Store, u: Update, done: seq<Update>, next: seq<Update>)
    requires m.offset == u.id + 1 && m.starts == s.starts + StartsOf(p, [u])
    requires (p.owns(u.sender) ==> IsStored(p, m, u)) && RowsExplained(p, s, m, [u])
    requires Done(p, m, t, done, next)
    ensures Done(p, s, t, [u] + done, next)
  {
    var all := [u] + done;
    RowsExplainedTwice(p, s, m, t, [u], done + next);
    assert [u] + (done + next) == all + next;
    StartsOfCons(p, u, done);
    StartsAdd(s.starts, StartsOf(p, [u]), StartsOf(p, done), StartsOf(p, next));
    StoredCons(p, m, t, u, done);
    if done != [] { assert all[|all| - 1] == done[|done| - 1]; }
  }

  lemma StoppedAtOnce(p: Platform, s: Store, u: Update, rest: seq<Update>, left: nat)
    requires Blocks(p, u) || left < Cost(p, u)
    ensures Done(p, s, Process(p, s, [u] + rest, left).0, [], [u]) && !Process(p, s, [u] + rest, left).1
  {
    var batch := [u] + rest;
    assert batch[0] == u && [] + [u] == [u];
    if !Blocks(p, u) { OneDealt(p, s, u); }
    assert s.starts + StartsOf(p, []) == s.starts;
    assert s.starts + StartsOf(p, []) + StartsOf(p, [u]) == s.starts + StartsOf(p, [u]);
  }

  /** The poll can deal with all of `batch`: none of it blocks, and the writes suffice. */
  ghost predicate Affords(p: Platform, batch: seq<Update>, left: nat) {
    Writes(p, batch) <= left && forall u :: u in batch ==> !Blocks(p, u)
  }

  lemma AffordsCons(p: Platform, u: Update, rest: seq<Update>, m: nat, left: nat)
    requires m <= |rest| && !Blocks(p, u) && Cost(p, u) <= left
    ensures Affords(p, ([u] + rest)[..m + 1], left) <==> Affords(p, rest[..m], left - Cost(p, u))
  {
    var all := ([u] + rest)[..m + 1];
    assert all == [u] + rest[..m] && all[1..] == rest[..m] && all[0] == u;
    if Affords(p, all, left) {
      forall v | v in rest[..m] ensures !Blocks(p, v) { assert v in all; }
    }
  }

  /** The first `n` updates, and these are all that it can afford, have been dealt with. */
  ghost predicate StopsAt(p: Platform, s: Store, batch: seq<Update>, left: nat, n: nat, t: Store, ok: bool) {
    && n <= |batch| && Affords(p, batch[..n], left)
    && (n < |batch| ==> !Affords(p, batch[..n + 1], left))
    && Done(p, s, t, batch[..n], if n < |batch| then [batch[n]] else [])
    && (ok <==> n == |batch|)
  }

  lemma StopsAtFirst(p: Platform, s: Store, u: Update, rest: seq<Update>, left: nat)
    requires Blocks(p, u) || left < Cost(p, u)
    ensures StopsAt(p, s, [u] + rest, left, 0, Process(p, s, [u] + rest, left).0, Process(p, s, [u] + rest, left).1)
  {
    var batch := [u] + rest;
    assert batch[..1] == [u] && [u][1..] == [] && u in [u];
    StoppedAtOnce(p, s, u, rest, left);
  }

  lemma StopsLater(p: Platform, s: Store, m: Store, u: Update, rest: seq<Update>, left: nat, n: nat, t: Store, ok: bool)
    requires !Blocks(p, u) && Cost(p, u) <= left
    requires m.offset == u.id + 1 && m.starts == s.starts + StartsOf(p, [u])
    requires (p.owns(u.sender) ==> IsStored(p, m, u)) && RowsExplained(p, s, m, [u])
    requires StopsAt(p, m, rest, left - Cost(p, u), n, t, ok)
    ensures StopsAt(p, s, [u] + rest, left, n + 1, t, ok)
  {
    var batch := [u] + rest;
    AffordsCons(p, u, rest, n, left);
    if n < |rest| { AffordsCons(p, u, rest, n + 1, left); }
    DoneCons(p, s, m, t, u, rest[..n], if n < |rest| then [rest[n]] else []);
    assert batch[..n + 1] == [u] + rest[..n];
  }

  lemma NothingToDo(p: Platform, s: Store, left: nat)
    ensures StopsAt(p, s, [], left, 0, Process(p, s, [], left).0, Process(p, s, [], left).1)
  {
    assert s.starts + StartsOf(p, []) == s.starts;
  }

  function Moved(p: Platform, s: Store, u: Update): Store
    requires !Blocks(p, u)
  {
    Dealt(p, s, u).(offset := u.id + 1)
  }

  lemma ProcessCons(p: Platform, s: Store, u: Update, rest: seq<Update>, left: nat)
    requires !Blocks(p, u) && Cost(p, u) <= left
    ensures Process(p, s, [u] + rest, left) == Process(p, Moved(p, s, u), rest, left - Cost(p, u))
  {
    assert ([u] + rest)[0] == u && ([u] + rest)[1..] == rest;
    ProcessUnfolds(p, s, [u] + rest, left);
  }

  lemma StopsAfterFirst(p: Platform, s: Store, u: Update, rest: seq<Update>, left: nat, m: nat, t: Store, ok: bool)
    requires !Blocks(p, u) && Cost(p, u) <= left
    requires StopsAt(p, Moved(p, s, u), rest, left - Cost(p, u), m, t, ok)
    ensures StopsAt(p, s, [u] + rest, left, m + 1, t, ok)
  {
    OneDealt(p, s, u);
    StopsLater(p, s, Moved(p, s, u), u, rest, left, m, t, ok);
  }

  /**
   * Every poll, whatever it was given and wherever a write fails. The updates that it deals with are the
   * longest part of its batch that it can afford: the offset is past the last of them, each owner update
   * among them has its row and each stranger's start was reported; of the next update at most its own
   * write was done. It reports success exactly if it has dealt with all.
   */
  lemma {:induction false} PollOutcome(p: Platform, s: Store, batch: seq<Update>, left: nat) returns (n: nat)
    ensures StopsAt(p, s, batch, left, n, Process(p, s, batch, left).0, Process(p, s, batch, left).1)
    decreases batch
  {
    if batch == [] {
      NothingToDo(p, s, left);
      return 0;
    }
    var u, rest := batch[0], batch[1..];
    assert batch == [u] + rest;
    if Blocks(p, u) || left < Cost(p, u) {
      StopsAtFirst(p, s, u, rest, left);
      return 0;
    }
    var m := PollOutcome(p, Moved(p, s, u), rest, left - Cost(p, u));
    var (t, ok) := Process(p, Moved(p, s, u), rest, left - Cost(p, u));
    ProcessCons(p, s, u, rest, left);
    StopsAfterFirst(p, s, u, rest, left, m, t, ok);
    return m + 1;
  }

  /** What a successful poll answers is how many owner updates its batch holds. */
  lemma {:induction false} OwnedIsCount(p: Platform, batch: seq<Update>, from: nat)
    requires from <= |batch|
    ensures Owned(p, batch[from..]) == |OwnedFrom(p, batch, from)|
    decreases |batch| - from
  {
    if from < |batch| {
      OwnedIsCount(p, batch, from + 1);
      assert batch[from..][1..] == batch[from + 1..];
      var later := OwnedFrom(p, batch, from + 1);
      assert OwnedFrom(p, batch, from) == if p.owns(batch[from].sender) then {from} + later else later;
    }
  }

  function OwnedFrom(p: Platform, batch: seq<Update>, from: nat): set<int> {
    set i | from <= i < |batch| && p.owns(batch[i].sender)
  }

  /** Acknowledging changes the state of waiting rows that were named, and nothing else. */
  lemma AcknowledgeOutcome(s: Store, ids: seq<string>, key: string)
    ensures var t := Acknowledged(s, ids);
            && t.offset == s.offset && t.starts == s.starts && (key in t.rows <==> key in s.rows)
            && (key in s.rows ==>
                  t.rows[key] == if s.rows[key].state == "received" && key in ids then s.rows[key].(state := "ingested")
                                 else s.rows[key])
  {
  }
}
