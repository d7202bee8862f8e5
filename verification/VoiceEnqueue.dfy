/**
 * Turning a finished voice capture into events, when an attempt may fail before or after any single
 * write and other messages are written in between. Event identifiers are reserved in the capture's
 * manifest first, so that a later attempt resumes instead of sending again.
 */
module VoiceEnqueue {
  import opened Basics
  import Media
  import MediaThread
  import PayloadCodec
  import Utf8
  import VoiceCapture

  const MAX_OUTBOX := 5_000

  type Row = MediaThread.Row

  datatype Pc =
    | Resting
    | PlanOnDisk(ids: seq<string>)
    | Scanning(looked: nat, absent: set<string>)
    | Sending(next: nat, missing: set<string>)
    | Done

  /**
   * `journal`: event identifiers in the order their rows first appeared. `reserved`: every identifier
   * ever drawn for this note. `plan` is the plan in memory, `manifest` the one on disk.
   */
  datatype State = State(
    events: map<string, Row>, journal: seq<string>, reserved: set<string>,
    manifest: seq<string>, plan: seq<string>, files: bool, pc: Pc)

  datatype Op =
    | WritePlan(drawn: seq<string>)
    | AdoptPlan
    | KeepPlan
    | Look
    | StartSending
    | SendNext
    | DeleteCapture
    | Fail
    | Other(id: string, row: Row)

  predicate Distinct(ids: seq<string>) { forall i, j :: 0 <= i < j < |ids| ==> ids[i] != ids[j] }

  predicate Idle(s: State) { s.pc.Resting? || s.pc.Done? }

  ghost predicate Fresh(s: State, ids: seq<string>) {
    forall id :: id in ids ==> id !in s.events && id !in s.reserved && id !in s.journal
  }

  ghost predicate Allowed(parts: seq<Row>, s: State, op: Op) {
    match op
    case WritePlan(drawn) => Idle(s) && s.plan == [] && |drawn| == |parts| && Distinct(drawn) && Fresh(s, drawn)
    case AdoptPlan => s.pc.PlanOnDisk?
    case KeepPlan => Idle(s) && s.plan != []
    case Look => s.pc.Scanning? && s.pc.looked < |s.plan|
    case StartSending => s.pc.Scanning? && s.pc.looked == |s.plan|
    case SendNext =>
      && s.pc.Sending? && s.pc.next < |s.plan| && s.pc.next < |parts|
      && (s.plan[s.pc.next] in s.pc.missing ==> parts[s.pc.next].Some?)
    case DeleteCapture => s.pc.Sending? && s.pc.next == |s.plan|
    case Fail => true
    case Other(id, _) => id !in s.reserved
  }

  function Insert(s: State, id: string, row: Row): State {
    if id in s.events then s else s.(events := s.events[id := row], journal := s.journal + [id])
  }

  ghost function Step(parts: seq<Row>, s: State, op: Op): State
    requires Allowed(parts, s, op)
  {
    match op
    case WritePlan(drawn) => s.(manifest := drawn, reserved := s.reserved + (set id | id in drawn), pc := PlanOnDisk(drawn))
    case AdoptPlan => s.(plan := s.pc.ids, pc := Scanning(0, {}))
    case KeepPlan => s.(pc := Scanning(0, {}))
    case Look =>
      var id := s.plan[s.pc.looked];
      s.(pc := Scanning(s.pc.looked + 1, if id in s.events then s.pc.absent else s.pc.absent + {id}))
    case StartSending => s.(pc := Sending(0, s.pc.absent))
    case SendNext =>
      var i := s.pc.next;
      var sent := if s.plan[i] in s.pc.missing then Insert(s, s.plan[i], parts[i]) else s;
      sent.(pc := Sending(i + 1, s.pc.missing))
    case DeleteCapture => s.(files := false, pc := Done)
    case Fail => s.(pc := Resting)
    case Other(id, row) => Insert(s, id, row)
  }

  ghost predicate AllAllowed(parts: seq<Row>, s: State, ops: seq<Op>)
    decreases |ops|, 0
  {
    ops == [] || (AllAllowed(parts, s, ops[..|ops| - 1]) && Allowed(parts, RunAll(parts, s, ops[..|ops| - 1]), ops[|ops| - 1]))
  }

  ghost function RunAll(parts: seq<Row>, s: State, ops: seq<Op>): State
    requires AllAllowed(parts, s, ops)
    decreases |ops|, 1
  {
    if ops == [] then s else Step(parts, RunAll(parts, s, ops[..|ops| - 1]), ops[|ops| - 1])
  }

  // ---------------------------------------------------------------- the note's own rows

  function Only(journal: seq<string>, ids: set<string>): seq<string> {
    if journal == [] then []
    else
      var init, last := Only(journal[..|journal| - 1], ids), journal[|journal| - 1];
      if last in ids then init + [last] else init
  }

  /** The rows of this note, in the order they were written. */
  function Own(s: State): seq<string> { Only(s.journal, s.reserved) }

  lemma {:induction false} OnlyHolds(journal: seq<string>, ids: set<string>, id: string)
    ensures id in Only(journal, ids) <==> id in journal && id in ids
  {
    if journal != [] {
      OnlyHolds(journal[..|journal| - 1], ids, id);
      assert journal == journal[..|journal| - 1] + [journal[|journal| - 1]];
    }
  }

  lemma {:induction false} OnlyIgnoresUnused(journal: seq<string>, ids: set<string>, more: set<string>)
    requires forall id :: id in journal ==> id !in more
    ensures Only(journal, ids + more) == Only(journal, ids)
  {
    if journal != [] {
      assert journal[|journal| - 1] in journal;
      OnlyIgnoresUnused(journal[..|journal| - 1], ids, more);
    }
  }

  /** The first rows of the plan, in the plan's order, once each, and each with its own payload. */
  ghost predicate SentPrefix(parts: seq<Row>, s: State) {
    && |Own(s)| <= |s.plan| && |s.plan| <= |parts|
    && Own(s) == s.plan[..|Own(s)|]
    && forall i :: 0 <= i < |Own(s)| ==> parts[i].Some? && s.plan[i] in s.events && s.events[s.plan[i]] == parts[i]
  }

  /** Every planned row exists: metadata first, then the chunks in order, each exactly once. */
  ghost predicate Delivered(parts: seq<Row>, s: State) {
    && |s.plan| == |parts| && Distinct(s.plan)
    && Own(s) == s.plan
    && forall i :: 0 <= i < |parts| ==> parts[i].Some? && s.plan[i] in s.events && s.events[s.plan[i]] == parts[i]
  }

  ghost predicate PlanIsSound(parts: seq<Row>, s: State, plan: seq<string>) {
    && |plan| == |parts| && Distinct(plan) && s.manifest == plan
    && forall id :: id in plan ==> id in s.reserved
  }

  ghost predicate PcInv(parts: seq<Row>, s: State) {
    match s.pc
    case Resting => true
    case PlanOnDisk(ids) => s.plan == [] && PlanIsSound(parts, s, ids)
    case Scanning(looked, absent) =>
      && s.plan != [] && looked <= |s.plan|
      && (forall id :: id in absent ==> id in s.plan && id !in s.events)
      && (forall i :: 0 <= i < looked ==> (s.plan[i] in absent <==> s.plan[i] !in s.events))
    case Sending(next, missing) =>
      && s.plan != [] && next <= |Own(s)|
      && (forall i :: next <= i < |s.plan| ==> (s.plan[i] in missing <==> i >= |Own(s)|))
    case Done => s.plan != [] && |Own(s)| == |s.plan|
  }

  ghost predicate Inv(parts: seq<Row>, s: State) {
    && |parts| >= 1
    && (forall id :: id in s.journal <==> id in s.events)
    && (s.plan != [] ==> PlanIsSound(parts, s, s.plan))
    && SentPrefix(parts, s)
    && PcInv(parts, s)
    && (!s.files ==> s.plan != [] && |Own(s)| == |s.plan|)
  }

  const START := State(map[], [], {}, [], [], true, Resting)

  lemma StartIsSound(parts: seq<Row>)
    requires |parts| >= 1
    ensures Inv(parts, START)
  {
  }

  /** A planned identifier has a row exactly when it is in the part of the plan already sent. */
  lemma PresentExactlyInPrefix(parts: seq<Row>, s: State, i: nat)
    requires Inv(parts, s) && i < |s.plan|
    ensures s.plan[i] in s.events <==> i < |Own(s)|
  {
    OnlyHolds(s.journal, s.reserved, s.plan[i]);
    assert s.plan[i] in s.plan;
    if s.plan[i] in s.events {
      var j :| 0 <= j < |Own(s)| && Own(s)[j] == s.plan[i];
      assert s.plan[j] == s.plan[i];
    }
  }

  lemma PlanningKeepsInv(parts: seq<Row>, s: State, drawn: seq<string>)
    requires Inv(parts, s) && Allowed(parts, s, WritePlan(drawn))
    ensures Inv(parts, Step(parts, s, WritePlan(drawn)))
  {
    OnlyIgnoresUnused(s.journal, s.reserved, set id | id in drawn);
  }

  lemma SendingKeepsInv(parts: seq<Row>, s: State)
    requires Inv(parts, s) && Allowed(parts, s, SendNext)
    ensures Inv(parts, Step(parts, s, SendNext))
  {
    var i, t := s.pc.next, Step(parts, s, SendNext);
    if s.plan[i] in s.pc.missing {
      OwnAfterSending(parts, s);
      assert Own(t) == s.plan[..i + 1];
      forall id ensures id in t.journal <==> id in t.events {
        assert id in s.journal <==> id in s.events;
      }
    } else {
      assert t == s.(pc := t.pc);
      assert Own(t) == Own(s);
    }
  }

  lemma OwnAfterSending(parts: seq<Row>, s: State)
    requires Inv(parts, s) && Allowed(parts, s, SendNext) && s.plan[s.pc.next] in s.pc.missing
    ensures var i, t := s.pc.next, Step(parts, s, SendNext);
            && i == |Own(s)| && t.journal == s.journal + [s.plan[i]] && t.events == s.events[s.plan[i] := parts[i]]
            && Own(t) == Own(s) + [s.plan[i]] == s.plan[..i + 1]
  {
    var i, t := s.pc.next, Step(parts, s, SendNext);
    PresentExactlyInPrefix(parts, s, i);
    assert s.plan[i] in s.plan;
    assert t.journal[..|t.journal| - 1] == s.journal;
  }

  lemma OtherKeepsInv(parts: seq<Row>, s: State, id: string, row: Row)
    requires Inv(parts, s) && Allowed(parts, s, Other(id, row))
    ensures Inv(parts, Step(parts, s, Other(id, row)))
    ensures Own(Step(parts, s, Other(id, row))) == Own(s)
  {
    var t := Step(parts, s, Other(id, row));
    if id !in s.events {
      assert t.journal[..|t.journal| - 1] == s.journal;
      assert Own(t) == Own(s);
      forall i | 0 <= i < |s.plan| ensures s.plan[i] != id {
        assert s.plan[i] in s.plan;
      }
    }
  }

  lemma StepKeepsInv(parts: seq<Row>, s: State, op: Op)
    requires Inv(parts, s) && Allowed(parts, s, op)
    ensures Inv(parts, Step(parts, s, op))
  {
    match op
    case WritePlan(drawn) => PlanningKeepsInv(parts, s, drawn);
    case SendNext => SendingKeepsInv(parts, s);
    case Other(id, row) => OtherKeepsInv(parts, s, id, row);
    case StartSending =>
      forall i | 0 <= i < |s.plan| ensures s.plan[i] in s.pc.absent <==> i >= |Own(s)| {
        PresentExactlyInPrefix(parts, s, i);
      }
    case Look =>
      forall i | 0 <= i < s.pc.looked ensures s.plan[i] != s.plan[s.pc.looked] {
      }
    case _ =>
  }

  /**
   * Whatever fails and however often: the rows of the note are a prefix of its one plan, in order and
   * once each; the capture is deleted, and success reported, only when every planned row exists.
   */
  lemma {:induction false} RunKeepsInv(parts: seq<Row>, s: State, ops: seq<Op>)
    requires Inv(parts, s) && AllAllowed(parts, s, ops)
    ensures Inv(parts, RunAll(parts, s, ops))
    ensures var t := RunAll(parts, s, ops);
            && (t.pc.Done? || !t.files ==> Delivered(parts, t))
            && (s.plan != [] ==> t.plan == s.plan)
            && Own(s) <= Own(t)
  {
    if ops != [] {
      var init := ops[..|ops| - 1];
      RunKeepsInv(parts, s, init);
      var before := RunAll(parts, s, init);
      StepKeepsInv(parts, before, ops[|ops| - 1]);
      OwnOnlyGrows(parts, before, ops[|ops| - 1]);
    }
  }

  lemma OwnOnlyGrows(parts: seq<Row>, s: State, op: Op)
    requires Inv(parts, s) && Allowed(parts, s, op)
    ensures Own(s) <= Own(Step(parts, s, op))
  {
    match op
    case WritePlan(drawn) => OnlyIgnoresUnused(s.journal, s.reserved, set id | id in drawn);
    case SendNext =>
      var t := Step(parts, s, SendNext);
      if t.journal != s.journal { assert t.journal[..|t.journal| - 1] == s.journal; }
    case Other(id, row) => OtherKeepsInv(parts, s, id, row);
    case _ =>
  }

  /** No step changes or removes a row that exists, the note's own or another; nor does any run. */
  lemma {:induction false} RowsStay(parts: seq<Row>, s: State, ops: seq<Op>, id: string)
    requires AllAllowed(parts, s, ops) && id in s.events
    ensures id in RunAll(parts, s, ops).events && RunAll(parts, s, ops).events[id] == s.events[id]
  {
    if ops != [] { RowsStay(parts, s, ops[..|ops| - 1], id); }
  }

  // ---------------------------------------------------------------- the method itself

  /** Unicode white space and the separators, as `isWhitespace` has it. */
  predicate IsWhitespace(c: char) {
    var v := c as int;
    || 0x09 <= v <= 0x0D || 0x1C <= v <= 0x20 || v == 0xA0 || v == 0x1680 || 0x2000 <= v <= 0x200A
    || 0x2028 <= v <= 0x2029 || v == 0x202F || v == 0x205F || v == 0x3000
  }

  lemma WhitespaceTable(c: char)
    ensures IsWhitespace(c) <==> c as int in {
      0x09, 0x0A, 0x0B, 0x0C, 0x0D, 0x1C, 0x1D, 0x1E, 0x1F, 0x20, 0xA0, 0x1680, 0x2000, 0x2001, 0x2002, 0x2003, 0x2004,
      0x2005, 0x2006, 0x2007, 0x2008, 0x2009, 0x200A, 0x2028, 0x2029, 0x202F, 0x205F, 0x3000}
  {
  }

  predicate IsBlank(s: string) { forall c :: c in s ==> IsWhitespace(c) }

  function PlanError(ids: seq<string>, chunkCount: nat): Option<string> {
    if |ids| != chunkCount + 1 || (exists id :: id in ids && IsBlank(id)) || !Distinct(ids)
    then Some("voice_plan_livraison_invalide") else None
  }

  /** One identifier for each row, none of them blank or drawn twice. */
  ghost predicate IsPlan(ids: seq<string>, rows: nat) {
    && |ids| == rows && (forall i, j :: 0 <= i < j < rows ==> ids[i] != ids[j])
    && forall id :: id in ids ==> exists c :: c in id && !IsWhitespace(c)
  }

  lemma PlanErrorExactlyWhen(ids: seq<string>, chunkCount: nat)
    ensures PlanError(ids, chunkCount) == if IsPlan(ids, chunkCount + 1) then None else Some("voice_plan_livraison_invalide")
  {
    if |ids| == chunkCount + 1 && Distinct(ids) && !IsPlan(ids, chunkCount + 1) {
      var id :| id in ids && forall c :: c in id ==> IsWhitespace(c);
      assert IsBlank(id);
    }
  }

  /** The planned identifiers that have no row. */
  function Missing(plan: seq<string>, events: map<string, Row>): set<string> {
    set id | id in plan && id !in events
  }

  /** After the look-up, what was found missing is exactly what is missing. */
  lemma ScanFindsMissing(parts: seq<Row>, s: State)
    requires Inv(parts, s) && s.pc.Scanning? && s.pc.looked == |s.plan|
    ensures s.pc.absent == Missing(s.plan, s.events)
  {
    forall id ensures id in s.pc.absent <==> id in Missing(s.plan, s.events) {
      if id in s.plan {
        var i :| 0 <= i < |s.plan| && s.plan[i] == id;
      }
    }
  }

  /**
   * One note and the event table. `parts`: its metadata payload, then its chunk payloads, each None
   * when the chunk cannot be read back or encoded.
   */
  class Sender {
    const parts: seq<Row>
    var events: map<string, Row>
    var manifest: seq<string>
    var plan: seq<string>
    var files: bool
    ghost var journal: seq<string>
    ghost var reserved: set<string>

    ghost function Now(pc: Pc): State
      reads this
    {
      State(events, journal, reserved, manifest, plan, files, pc)
    }

    method SealAndEnqueue(id: string, row: Row)
      modifies this`events, this`journal
      ensures Now(Resting) == Insert(old(Now(Resting)), id, row)
    {
      if id !in events {
        events := events[id := row];
        journal := journal + [id];
      }
    }

    /** A new note gets its plan, on disk and then in memory; a resumed note keeps the one it has. */
    method Reserve(drawn: seq<string>, faults: nat) returns (r: Result<()>, left: nat, ghost ops: seq<Op>)
      requires Inv(parts, Now(Resting)) && Fresh(Now(Resting), drawn)
      modifies this`manifest, this`plan, this`reserved
      ensures Reaches(parts, old(Now(Resting)), ops, Now(if r.Ok? then Scanning(0, {}) else Resting))
      ensures r.Ok? ==> plan != [] && |plan| == |parts| && left + 2 >= faults
      ensures old(plan) != [] ==> plan == old(plan) && r.Ok?
      ensures IsPlan(drawn, |parts|) && faults >= 2 ==> r.Ok?
      ensures old(plan) == [] && !IsPlan(drawn, |parts|) ==> r == Err("voice_plan_livraison_invalide") && unchanged(this)
      ensures r.Err? ==> r.error in {"voice_plan_livraison_invalide", "io"}
    {
      PlanErrorExactlyWhen(drawn, |parts| - 1);
      ghost var start := Now(Resting);
      ops, left := [], faults;
      if plan != [] {
        ops := Extend(parts, start, ops, start, KeepPlan);
        return Ok(()), left, ops;
      }
      var error := PlanError(drawn, |parts| - 1);
      if error.Some? { return Err(error.value), left, ops; }
      if left == 0 { return Err("io"), left, ops; }
      left := left - 1;
      ops := Extend(parts, start, ops, start, WritePlan(drawn));
      manifest := drawn;
      reserved := reserved + set id | id in drawn;
      if left == 0 {
        ops := Extend(parts, start, ops, Now(PlanOnDisk(drawn)), Fail);
        return Err("io"), left, ops;
      }
      left := left - 1;
      ops := Extend(parts, start, ops, Now(PlanOnDisk(drawn)), AdoptPlan);
      plan := drawn;
      return Ok(()), left, ops;
    }

    method LookAt(i: nat, absent: set<string>, ghost start: State, ghost done: seq<Op>)
      returns (missing: set<string>, ghost ops: seq<Op>)
      requires i < |plan| && Reaches(parts, start, done, Now(Scanning(i, absent)))
      ensures Reaches(parts, start, ops, Now(Scanning(i + 1, missing)))
      ensures |missing| <= |absent| + 1
    {
      missing := absent;
      if plan[i] !in events { missing := missing + {plan[i]}; }
      ops := Extend(parts, start, done, Now(Scanning(i, absent)), Look);
    }

    /** Which planned events have no row yet. */
    method Scan(faults: nat, ghost start: State, ghost done: seq<Op>)
      returns (ok: bool, missing: set<string>, left: nat, ghost ops: seq<Op>)
      requires Reaches(parts, start, done, Now(Scanning(0, {})))
      ensures Reaches(parts, start, ops, Now(if ok then Scanning(|plan|, missing) else Resting))
      ensures |missing| <= |plan|
      ensures ok ==> left + |plan| >= faults
      ensures faults >= |plan| ==> ok
    {
      ops, left, missing := done, faults, {};
      var i := 0;
      while i < |plan| && left > 0
        invariant 0 <= i <= |plan| && |missing| <= i && left + i == faults
        invariant Reaches(parts, start, ops, Now(Scanning(i, missing)))
      {
        missing, ops := LookAt(i, missing, start, ops);
        i, left := i + 1, left - 1;
      }
      ok := i == |plan|;
      if !ok { ops := Extend(parts, start, ops, Now(Scanning(i, missing)), Fail); }
    }

    method SendOne(i: nat, missing: set<string>, ghost start: State, ghost done: seq<Op>) returns (ghost ops: seq<Op>)
      requires i < |plan| && i < |parts| && (plan[i] in missing ==> parts[i].Some?)
      requires Reaches(parts, start, done, Now(Sending(i, missing)))
      modifies this`events, this`journal
      ensures Reaches(parts, start, ops, Now(Sending(i + 1, missing)))
    {
      ops := Extend(parts, start, done, Now(Sending(i, missing)), SendNext);
      if plan[i] in missing { SealAndEnqueue(plan[i], parts[i]); }
    }

    /** Writes the missing rows, metadata first, up to the first that fails. */
    method SendRows(missing: set<string>, faults: nat, ghost start: State, ghost done: seq<Op>)
      returns (i: nat, left: nat, ghost ops: seq<Op>)
      requires Reaches(parts, start, done, Now(Sending(0, missing))) && |plan| == |parts|
      modifies this`events, this`journal
      ensures i <= |plan| && left + i == faults && Reaches(parts, start, ops, Now(Sending(i, missing)))
      ensures i < |plan| ==> left == 0 || (plan[i] in missing && parts[i].None?)
    {
      i, left, ops := 0, faults, done;
      while i < |plan| && left > 0 && (plan[i] !in missing || parts[i].Some?)
        invariant 0 <= i <= |plan| && left + i == faults
        invariant Reaches(parts, start, ops, Now(Sending(i, missing)))
      {
        ops := SendOne(i, missing, start, ops);
        i, left := i + 1, left - 1;
      }
    }

    /** Writes the missing rows, metadata first, then deletes the capture. */
    method SendMissing(missing: set<string>, faults: nat, ghost start: State, ghost done: seq<Op>)
      returns (ok: bool, ghost ops: seq<Op>)
      requires Reaches(parts, start, done, Now(Scanning(|plan|, missing))) && |plan| == |parts|
      modifies this`events, this`journal, this`files
      ensures Reaches(parts, start, ops, Now(if ok then Done else Resting))
      ensures ok ==> !files
      ensures faults > |plan| && (forall i :: 0 <= i < |parts| ==> parts[i].Some?) ==> ok
    {
      ops := Extend(parts, start, done, Now(Scanning(|plan|, missing)), StartSending);
      var i, left, trace := SendRows(missing, faults, start, ops);
      ok := i == |plan| && left > 0;
      if ok {
        ops := Extend(parts, start, trace, Now(Sending(i, missing)), DeleteCapture);
        files := false;
      } else {
        ops := Extend(parts, start, trace, Now(Sending(i, missing)), Fail);
      }
    }

    /**
     * `faults`: how many reads and writes succeed before one fails. Every attempt is a run of the
     * machine above; it succeeds exactly by reaching the deletion of the capture.
     */
    method EnqueueVoice(peerAccepts: bool, outboxSize: nat, drawn: seq<string>, faults: nat)
      returns (r: Result<()>, ghost ops: seq<Op>)
      requires Inv(parts, Now(Resting)) && Fresh(Now(Resting), drawn)
      modifies this
      ensures Reaches(parts, old(Now(Resting)), ops, Now(if r.Ok? then Done else Resting))
      ensures Inv(parts, Now(Resting))
      ensures r.Ok? ==> Delivered(parts, Now(Done)) && !files
      ensures old(plan) != [] ==> plan == old(plan)
      ensures !peerAccepts ==> r == Err("chat_pc_sans_pieces_jointes") && unchanged(this)
      ensures peerAccepts && old(plan) == [] && !IsPlan(drawn, |parts|) ==>
        r == Err("voice_plan_livraison_invalide") && unchanged(this)
      ensures r.Ok? ==> outboxSize + |Missing(plan, old(events))| < 5_000
      ensures r == Err("chat_outbox_pleine") ==>
        events == old(events) && files == old(files) && outboxSize + |Missing(plan, events)| >= 5_000
      ensures peerAccepts && (old(plan) != [] || IsPlan(drawn, |parts|)) && faults >= |parts| + 2 ==>
        (r == Err("chat_outbox_pleine") <==> outboxSize + |Missing(plan, old(events))| >= 5_000)
      ensures (exists i :: 0 <= i < |parts| && parts[i].None?) ==> r.Err?
      ensures (&& peerAccepts && outboxSize + |parts| < MAX_OUTBOX && faults >= 2 * |parts| + 3
               && (forall i :: 0 <= i < |parts| ==> parts[i].Some?)
               && (old(plan) != [] || IsPlan(drawn, |parts|))) ==> r.Ok?
    {
      if !peerAccepts { return Err("chat_pc_sans_pieces_jointes"), []; }
      ghost var start := Now(Resting);
      var reserve, left, trace := Reserve(drawn, faults);
      ops := trace;
      RunKeepsInv(parts, start, ops);
      if reserve.Err? { return reserve, ops; }
      r, ops := ResumePlan(outboxSize, left, start, ops);
      RunKeepsInv(parts, start, ops);
    }

    method ResumePlan(outboxSize: nat, faults: nat, ghost start: State, ghost done: seq<Op>)
      returns (r: Result<()>, ghost ops: seq<Op>)
      requires Inv(parts, start) && Reaches(parts, start, done, Now(Scanning(0, {}))) && |plan| == |parts|
      modifies this`events, this`journal, this`files
      ensures Reaches(parts, start, ops, Now(if r.Ok? then Done else Resting))
      ensures r.Ok? ==> !files && outboxSize + |Missing(plan, old(events))| < MAX_OUTBOX
      ensures r == Err("chat_outbox_pleine") ==>
        events == old(events) && files == old(files) && outboxSize + |Missing(plan, events)| >= MAX_OUTBOX
      ensures faults >= |parts| && outboxSize + |Missing(plan, old(events))| >= MAX_OUTBOX ==> r == Err("chat_outbox_pleine")
      ensures (&& outboxSize + |parts| < MAX_OUTBOX && faults >= 2 * |parts| + 1
               && forall i :: 0 <= i < |parts| ==> parts[i].Some?) ==> r.Ok?
    {
      var scanned, missing, left, trace := Scan(faults, start, done);
      ops := trace;
      if !scanned { return Err("io"), ops; }
      RunKeepsInv(parts, start, ops);
      ScanFindsMissing(parts, Now(Scanning(|plan|, missing)));
      if !(outboxSize + |missing| < MAX_OUTBOX) {
        ops := Extend(parts, start, ops, Now(Scanning(|plan|, missing)), Fail);
        return Err("chat_outbox_pleine"), ops;
      }
      var sent, trace' := SendMissing(missing, left, start, ops);
      ops := trace';
      r := if sent then Ok(()) else Err("io");
    }
  }

  /** `ops` is a run of the machine from `start` to `now`. */
  ghost predicate Reaches(parts: seq<Row>, start: State, ops: seq<Op>, now: State) {
    AllAllowed(parts, start, ops) && RunAll(parts, start, ops) == now
  }

  ghost method Extend(parts: seq<Row>, start: State, ops: seq<Op>, now: State, op: Op) returns (more: seq<Op>)
    requires Reaches(parts, start, ops, now) && Allowed(parts, now, op)
    ensures Reaches(parts, start, more, Step(parts, now, op))
  {
    more := ops + [op];
    assert more[..|more| - 1] == ops;
  }
}
