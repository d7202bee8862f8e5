/**
 * Voice note sessions: starting, the capture worker, stop, cancel and loss of the audio focus, each
 * step a critical section or one call on a resource, in any interleaving. A session is known by a
 * handle; the answers of the microphone, the focus service and the sink are inputs of the steps.
 */
module Recorder {
  import opened Basics

  const CHUNK_BYTES := 32_000
  const MAX_BYTES := 52_428_800

  datatype Ending = Discarding | Completing

  datatype Phase =
    | Rejecting | Requesting | Checking | Creating | Starting | Activating | GivingUp
    | Live
    | Releasing(ending: Ending) | Abandoning(ending: Ending) | Settling(ending: Ending) | Publishing | Over

  datatype Worker = NotStarted | Looping | Reading | Got(n: nat) | Taking(ending: Ending) | Stopped

  /** Counts of what was done for a session; `freed`: how often the system really got its focus back. */
  datatype Session = Session(
    phase: Phase, worker: Worker, bytes: nat, announcing: bool,
    created: nat, released: nat, requests: nat, abandons: nat, freed: nat, completed: nat, discarded: nat, results: nat)

  datatype Shown = Idle | RecordingNow(id: nat) | Result(id: nat)

  /**
   * `opening` is the code's flag together with the session that set it, `slot` the one focus request
   * that the focus adapter remembers, `shown` the published state.
   */
  datatype State = State(
    sessions: map<nat, Session>, active: Option<nat>, opening: Option<nat>, lost: bool, slot: Option<nat>, shown: Shown)

  const START := State(map[], None, None, false, None, Idle)

  datatype Op =
    | Begin(id: nat)
    | Request(id: nat, granted: bool)
    | CheckLost(id: nat)
    | Create(id: nat, ok: bool)
    | StartRecording(id: nat, ok: bool)
    | Activate(id: nat)
    | Announce(id: nat)
    | EndOpening(id: nat)
    | Release(id: nat)
    | Abandon(id: nat)
    | Settle(id: nat, longEnough: bool, finalized: bool)
    | Publish(id: nat)
    | StopActive
    | CancelActive
    | FocusLoss
    | WorkerCheck(id: nat, limit: bool)
    | WorkerRead(id: nat, n: int)
    | WorkerAppend(id: nat, written: bool, limit: bool)
    | WorkerTake(id: nat)

  predicate IsOpening(p: Phase) {
    p.Requesting? || p.Checking? || p.Creating? || p.Starting? || p.Activating? || p.GivingUp?
  }

  function With(s: State, id: nat, t: Session): State { s.(sessions := s.sessions[id := t]) }

  /** `takeActive()` followed by the start of `complete` or `discard`. */
  function Take(s: State, ending: Ending): State {
    if s.active.Some? && s.active.value in s.sessions then
      With(s, s.active.value, s.sessions[s.active.value].(phase := Releasing(ending))).(active := None)
    else s
  }

  ghost predicate At(s: State, id: nat, phase: Phase) { id in s.sessions && s.sessions[id].phase == phase }

  ghost predicate Allowed(s: State, op: Op) {
    match op
    case Begin(id) => id !in s.sessions
    case Request(id, _) => At(s, id, Requesting)
    case CheckLost(id) => At(s, id, Checking)
    case Create(id, _) => At(s, id, Creating)
    case StartRecording(id, _) => At(s, id, Starting)
    case Activate(id) => At(s, id, Activating)
    case Announce(id) => id in s.sessions && s.sessions[id].announcing
    case EndOpening(id) => At(s, id, GivingUp)
    case Release(id) => id in s.sessions && s.sessions[id].phase.Releasing?
    case Abandon(id) => id in s.sessions && s.sessions[id].phase.Abandoning?
    case Settle(id, _, _) => id in s.sessions && (s.sessions[id].phase.Settling? || s.sessions[id].phase.Rejecting?)
    case Publish(id) => At(s, id, Publishing)
    case StopActive => true
    case CancelActive => true
    case FocusLoss => true
    case WorkerCheck(id, _) => id in s.sessions && s.sessions[id].worker.Looping?
    case WorkerRead(id, n) => id in s.sessions && s.sessions[id].worker.Reading?
      && n <= Min(CHUNK_BYTES, MAX_BYTES - s.sessions[id].bytes)
    case WorkerAppend(id, _, _) => id in s.sessions && s.sessions[id].worker.Got?
    case WorkerTake(id) => id in s.sessions && s.sessions[id].worker.Taking?
  }

  /** `abandon()`: gives back whichever request the adapter remembers. */
  function FreeSlot(s: State): State {
    if s.slot.Some? && s.slot.value in s.sessions then
      With(s, s.slot.value, s.sessions[s.slot.value].(freed := s.sessions[s.slot.value].freed + 1)).(slot := None)
    else s.(slot := None)
  }

  ghost function Step(s: State, op: Op): State
    requires Allowed(s, op)
  {
    match op
    case Begin(id) =>
      var free := s.active.None? && s.opening.None?;
      var t := Session(if free then Requesting else Rejecting, NotStarted, 0, false, 0, 0, 0, 0, 0, 0, 0, 0);
      if free then With(s, id, t).(opening := Some(id), lost := false) else With(s, id, t)
    case Request(id, granted) =>
      var t := s.sessions[id];
      With(s, id, t.(requests := t.requests + 1, phase := if granted then Checking else GivingUp)).(slot := Some(id))
    case CheckLost(id) => With(s, id, s.sessions[id].(phase := if s.lost then GivingUp else Creating))
    case Create(id, ok) =>
      var t := s.sessions[id];
      With(s, id, if ok then t.(created := t.created + 1, phase := Starting) else t.(phase := GivingUp))
    case StartRecording(id, ok) => With(s, id, s.sessions[id].(phase := if ok then Activating else GivingUp))
    case Activate(id) =>
      var can := s.opening.Some? && !s.lost && s.active.None?;
      var t := s.sessions[id].(phase := if can then Live else Releasing(Discarding), announcing := can);
      With(s, id, t).(opening := None, lost := false, active := if can then Some(id) else s.active)
    case Announce(id) =>
      var t := s.sessions[id];
      With(s, id, t.(announcing := false, worker := Looping)).(shown := RecordingNow(id))
    case EndOpening(id) => With(s, id, s.sessions[id].(phase := Releasing(Discarding))).(opening := None, lost := false)
    case Release(id) =>
      var t := s.sessions[id];
      With(s, id, t.(released := if t.created > 0 then t.released + 1 else t.released, phase := Abandoning(t.phase.ending)))
    case Abandon(id) =>
      var freed := FreeSlot(s);
      var t := freed.sessions[id];
      With(freed, id, t.(abandons := t.abandons + 1, phase := Settling(t.phase.ending)))
    case Settle(id, longEnough, finalized) =>
      var t := s.sessions[id];
      var completes := t.phase.Settling? && t.phase.ending.Completing? && longEnough && t.bytes > 0 && finalized;
      With(s, id, if completes then t.(completed := t.completed + 1, phase := Publishing)
                  else t.(discarded := t.discarded + 1, phase := Publishing))
    case Publish(id) =>
      var t := s.sessions[id];
      With(s, id, t.(results := t.results + 1, phase := Over)).(shown := Result(id))
    case StopActive => Take(s, Completing)
    case CancelActive => Take(s, Discarding)
    case FocusLoss => if s.opening.Some? then s.(lost := true) else Take(s, Discarding)
    case WorkerCheck(id, limit) =>
      var t := s.sessions[id];
      With(s, id, t.(worker := if s.active != Some(id) then Stopped
                               else if limit || t.bytes >= MAX_BYTES then Taking(Completing) else Reading))
    case WorkerRead(id, n) => With(s, id, s.sessions[id].(worker := if n > 0 then Got(n) else Taking(Discarding)))
    case WorkerAppend(id, written, limit) =>
      var t := s.sessions[id];
      if s.active != Some(id) then With(s, id, t.(worker := Stopped))
      else if !written then With(s, id, t.(worker := Taking(Discarding)))
      else
        var bytes := t.bytes + t.worker.n;
        With(s, id, t.(bytes := bytes, worker := if limit || bytes >= MAX_BYTES then Taking(Completing) else Looping))
    case WorkerTake(id) =>
      var ending := s.sessions[id].worker.ending;
      var stopped := With(s, id, s.sessions[id].(worker := Stopped));
      if s.active == Some(id) then Take(stopped, ending) else stopped
  }

  ghost predicate AllAllowed(s: State, ops: seq<Op>)
    decreases ops
  {
    ops == [] || (Allowed(s, ops[0]) && AllAllowed(Step(s, ops[0]), ops[1..]))
  }

  ghost function RunAll(s: State, ops: seq<Op>): State
    requires AllAllowed(s, ops)
    decreases ops
  {
    if ops == [] then s else RunAll(Step(s, ops[0]), ops[1..])
  }

  // ---------------------------------------------------------------- every resource, exactly once

  predicate HadFocus(p: Phase) { !p.Rejecting? && !p.Requesting? }

  predicate GaveUpAudio(p: Phase) { p.Abandoning? || p.Settling? || p.Publishing? || p.Over? }

  predicate GaveUpFocus(p: Phase) { p.Settling? || p.Publishing? || p.Over? }

  function One(b: bool): nat { if b then 1 else 0 }

  ghost predicate WorkerSound(t: Session) {
    && t.bytes <= MAX_BYTES
    && (t.worker.Reading? ==> t.bytes < MAX_BYTES)
    && (t.worker.Got? ==> 0 < t.worker.n <= CHUNK_BYTES && t.bytes + t.worker.n <= MAX_BYTES)
    && (t.announcing ==> t.worker.NotStarted?)
    && (!t.worker.NotStarted? || t.announcing || t.phase.Live? ==> t.created == 1)
    && (IsOpening(t.phase) || t.phase.Rejecting? ==> t.worker.NotStarted? && !t.announcing && t.bytes == 0)
  }

  /** What has been done for a session, by how far it is. A refused start never asks for anything. */
  ghost predicate Sound(t: Session) {
    && t.requests <= 1 && t.created <= t.requests
    && (t.phase.Rejecting? || t.phase.Requesting? ==> t.requests == 0)
    && (HadFocus(t.phase) && !t.phase.Publishing? && !t.phase.Over? ==> t.requests == 1)
    && (t.phase.Checking? || t.phase.Creating? ==> t.created == 0)
    && (t.phase.Starting? || t.phase.Activating? || t.phase.Live? ==> t.created == 1)
    && t.released == (if GaveUpAudio(t.phase) then t.created else 0)
    && t.abandons == (if GaveUpFocus(t.phase) then t.requests else 0)
    && t.completed + t.discarded == One(t.phase.Publishing? || t.phase.Over?)
    && (t.completed == 1 ==> t.bytes > 0)
    && t.results == One(t.phase.Over?)
    && WorkerSound(t)
  }

  ghost predicate Owners(s: State, id: nat) {
    && (s.active == Some(id) <==> id in s.sessions && s.sessions[id].phase.Live?)
    && (s.opening == Some(id) <==> id in s.sessions && IsOpening(s.sessions[id].phase))
  }

  ghost predicate Inv(s: State) {
    && (forall id {:trigger Sound(s.sessions[id])} :: id in s.sessions ==> Sound(s.sessions[id]))
    && (forall id :: Owners(s, id))
    && !(s.active.Some? && s.opening.Some?)
  }

  lemma TakeKeepsInv(s: State, ending: Ending)
    requires Inv(s)
    ensures Inv(Take(s, ending))
  {
    var t := Take(s, ending);
    if s.active.Some? { assert Owners(s, s.active.value) && Sound(s.sessions[s.active.value]); }
    forall id ensures Owners(t, id) { assert Owners(s, id); }
  }

  predicate InStart(op: Op) {
    op.Begin? || op.Request? || op.CheckLost? || op.Create? || op.StartRecording? || op.Activate? || op.Announce? || op.EndOpening?
  }

  predicate InTeardown(op: Op) { op.Release? || op.Abandon? || op.Settle? || op.Publish? }

  /** The owner has not changed, or has only changed from or to this session. */
  predicate OnlyFor(id: nat, now: Option<nat>, was: Option<nat>) {
    now == was || ((now.None? || now.value == id) && (was.None? || was.value == id))
  }

  /** Replacing one session is enough to look at, as long as the others keep what they own. */
  lemma ReplacedKeepsInv(s: State, t: State, id: nat)
    requires Inv(s) && id in t.sessions && t.sessions == s.sessions[id := t.sessions[id]]
    requires Sound(t.sessions[id]) && Owners(t, id)
    requires OnlyFor(id, t.active, s.active) && OnlyFor(id, t.opening, s.opening)
    requires !(t.active.Some? && t.opening.Some?)
    ensures Inv(t)
  {
    forall other ensures Owners(t, other) {
      assert Owners(s, other);
      if other != id {
        assert t.active == Some(other) <==> s.active == Some(other);
        assert t.opening == Some(other) <==> s.opening == Some(other);
      }
    }
  }

  lemma BeginKeepsInv(s: State, id: nat)
    requires Inv(s) && Allowed(s, Begin(id))
    ensures Inv(Step(s, Begin(id)))
  {
    assert Owners(s, id);
    ReplacedKeepsInv(s, Step(s, Begin(id)), id);
  }

  lemma AskingKeepsInv(s: State, op: Op)
    requires Inv(s) && Allowed(s, op) && (op.Request? || op.CheckLost?)
    ensures Inv(Step(s, op))
  {
    assert Owners(s, op.id) && Sound(s.sessions[op.id]);
    ReplacedKeepsInv(s, Step(s, op), op.id);
  }

  lemma OpeningKeepsInv(s: State, op: Op)
    requires Inv(s) && Allowed(s, op) && (op.Create? || op.StartRecording?)
    ensures Inv(Step(s, op))
  {
    assert Owners(s, op.id) && Sound(s.sessions[op.id]);
    ReplacedKeepsInv(s, Step(s, op), op.id);
  }

  lemma ActivatingKeepsInv(s: State, id: nat)
    requires Inv(s) && Allowed(s, Activate(id))
    ensures Inv(Step(s, Activate(id)))
  {
    assert Owners(s, id) && Sound(s.sessions[id]);
    ReplacedKeepsInv(s, Step(s, Activate(id)), id);
  }

  lemma LeavingStartKeepsInv(s: State, op: Op)
    requires Inv(s) && Allowed(s, op) && (op.Announce? || op.EndOpening?)
    ensures Inv(Step(s, op))
  {
    assert Owners(s, op.id) && Sound(s.sessions[op.id]);
    ReplacedKeepsInv(s, Step(s, op), op.id);
  }

  lemma StartKeepsInv(s: State, op: Op)
    requires Inv(s) && Allowed(s, op) && InStart(op)
    ensures Inv(Step(s, op))
  {
    if op.Begin? { BeginKeepsInv(s, op.id); }
    else if op.Request? || op.CheckLost? { AskingKeepsInv(s, op); }
    else if op.Activate? { ActivatingKeepsInv(s, op.id); }
    else if op.Announce? || op.EndOpening? { LeavingStartKeepsInv(s, op); }
    else { OpeningKeepsInv(s, op); }
  }

  lemma FreeSlotKeepsInv(s: State)
    requires Inv(s)
    ensures Inv(FreeSlot(s)) && FreeSlot(s).sessions.Keys == s.sessions.Keys
    ensures forall id :: id in s.sessions ==> FreeSlot(s).sessions[id] == s.sessions[id].(freed := FreeSlot(s).sessions[id].freed)
  {
    if s.slot.Some? && s.slot.value in s.sessions {
      assert Owners(s, s.slot.value) && Sound(s.sessions[s.slot.value]);
      ReplacedKeepsInv(s, FreeSlot(s), s.slot.value);
    } else {
      forall id ensures Owners(FreeSlot(s), id) { assert Owners(s, id); }
    }
  }

  lemma AbandonKeepsInv(s: State, id: nat)
    requires Inv(s) && Allowed(s, Abandon(id))
    ensures Inv(Step(s, Abandon(id)))
  {
    FreeSlotKeepsInv(s);
    assert Owners(FreeSlot(s), id) && Sound(FreeSlot(s).sessions[id]);
    ReplacedKeepsInv(FreeSlot(s), Step(s, Abandon(id)), id);
  }

  lemma ReleaseKeepsInv(s: State, id: nat)
    requires Inv(s) && Allowed(s, Release(id))
    ensures Inv(Step(s, Release(id)))
  {
    assert Owners(s, id) && Sound(s.sessions[id]);
    ReplacedKeepsInv(s, Step(s, Release(id)), id);
  }

  lemma EndingKeepsInv(s: State, op: Op)
    requires Inv(s) && Allowed(s, op) && (op.Settle? || op.Publish?)
    ensures Inv(Step(s, op))
  {
    assert Owners(s, op.id) && Sound(s.sessions[op.id]);
    ReplacedKeepsInv(s, Step(s, op), op.id);
  }

  lemma TeardownKeepsInv(s: State, op: Op)
    requires Inv(s) && Allowed(s, op) && InTeardown(op)
    ensures Inv(Step(s, op))
  {
    if op.Abandon? { AbandonKeepsInv(s, op.id); }
    else if op.Release? { ReleaseKeepsInv(s, op.id); }
    else { EndingKeepsInv(s, op); }
  }

  lemma WorkerStepKeepsInv(s: State, op: Op)
    requires Inv(s) && Allowed(s, op) && (op.WorkerCheck? || op.WorkerRead? || op.WorkerAppend?)
    ensures Inv(Step(s, op))
  {
    assert Owners(s, op.id) && Sound(s.sessions[op.id]);
    ReplacedKeepsInv(s, Step(s, op), op.id);
  }

  lemma WorkerTakeKeepsInv(s: State, id: nat)
    requires Inv(s) && Allowed(s, WorkerTake(id))
    ensures Inv(Step(s, WorkerTake(id)))
  {
    assert Owners(s, id) && Sound(s.sessions[id]);
    var stopped := With(s, id, s.sessions[id].(worker := Stopped));
    ReplacedKeepsInv(s, stopped, id);
    TakeKeepsInv(stopped, s.sessions[id].worker.ending);
  }

  lemma TakingKeepsInv(s: State, op: Op)
    requires Inv(s) && (op.StopActive? || op.CancelActive? || op.FocusLoss?)
    ensures Inv(Step(s, op))
  {
    TakeKeepsInv(s, if op.StopActive? then Completing else Discarding);
    forall id ensures Owners(s.(lost := true), id) { assert Owners(s, id); }
  }

  lemma StepKeepsInv(s: State, op: Op)
    requires Inv(s) && Allowed(s, op)
    ensures Inv(Step(s, op))
  {
    if InStart(op) { StartKeepsInv(s, op); }
    else if InTeardown(op) { TeardownKeepsInv(s, op); }
    else if op.StopActive? || op.CancelActive? || op.FocusLoss? { TakingKeepsInv(s, op); }
    else if op.WorkerTake? { WorkerTakeKeepsInv(s, op.id); }
    else { WorkerStepKeepsInv(s, op); }
  }

  lemma StartIsSound()
    ensures Inv(START) && SlotInv(START) && FocusInv(START)
  {
    assert forall id :: Owners(START, id);
  }

  /** A capture that has been taken is never live again, and receives nothing more. */
  predicate PastLive(p: Phase) {
    p.Releasing? || p.Abandoning? || p.Settling? || p.Publishing? || p.Over?
  }

  lemma TakenStaysTaken(s: State, op: Op, id: nat)
    requires Inv(s) && Allowed(s, op) && id in s.sessions && PastLive(s.sessions[id].phase)
    ensures var t := Step(s, op);
            id in t.sessions && PastLive(t.sessions[id].phase) && t.sessions[id].bytes == s.sessions[id].bytes
  {
    assert Owners(s, id);
    if op.Abandon? { FreeSlotKeepsInv(s); }
  }

  /**
   * Every interleaving: a session that is over has completed or discarded its sink exactly once,
   * published one result, released its recorder exactly once if it had one, and abandoned the focus
   * exactly as often as it asked for it; once taken, a capture receives nothing more.
   */
  lemma {:induction false} EveryResourceOnce(s: State, ops: seq<Op>, id: nat)
    requires Inv(s) && AllAllowed(s, ops) && id in RunAll(s, ops).sessions
    ensures Inv(RunAll(s, ops))
    ensures var t := RunAll(s, ops).sessions[id];
            && t.completed + t.discarded <= 1 && t.released <= t.created <= 1 && t.abandons <= t.requests <= 1 && t.results <= 1
            && (t.phase.Over? ==>
                  && t.completed + t.discarded == 1 && t.results == 1
                  && t.released == t.created && t.abandons == t.requests)
            && (t.completed == 1 ==> 0 < t.bytes <= MAX_BYTES)
            && (id in s.sessions && PastLive(s.sessions[id].phase) ==> t.bytes == s.sessions[id].bytes)
    decreases ops
  {
    if ops == [] {
      assert Sound(s.sessions[id]);
    } else {
      StepKeepsInv(s, ops[0]);
      if id in s.sessions && PastLive(s.sessions[id].phase) { TakenStaysTaken(s, ops[0], id); }
      EveryResourceOnce(Step(s, ops[0]), ops[1..], id);
    }
  }

  /** Bytes are appended only to the live session, by its own worker. */
  lemma AppendsOnlyWhileLive(s: State, op: Op, id: nat)
    requires Inv(s) && Allowed(s, op) && id in s.sessions
    ensures id in Step(s, op).sessions
    ensures Step(s, op).sessions[id].bytes != s.sessions[id].bytes ==>
      op.WorkerAppend? && op.id == id && s.sessions[id].phase.Live? && s.active == Some(id)
  {
    assert Owners(s, id);
  }

  // ---------------------------------------------------------------- the focus adapter

  /** The adapter remembers one request: a newer one replaces it. */
  ghost predicate SlotInv(s: State) {
    && (s.slot.Some? ==> s.slot.value in s.sessions)
    && forall id :: id in s.sessions ==> s.sessions[id].freed + One(s.slot == Some(id)) <= s.sessions[id].requests
  }

  lemma SlotChanges(s: State, op: Op)
    requires Allowed(s, op)
    ensures Step(s, op).slot == if op.Request? then Some(op.id) else if op.Abandon? then None else s.slot
    ensures s.sessions.Keys <= Step(s, op).sessions.Keys
  {
  }

  lemma NewSession(s: State, op: Op, id: nat)
    requires Allowed(s, op) && id in Step(s, op).sessions && id !in s.sessions
    ensures op == Begin(id)
    ensures var t := Step(s, op).sessions[id]; t.requests == 0 && t.freed == 0 && t.abandons == 0
  {
  }

  /** Asking and abandoning are all that changes who holds the focus. */
  lemma FocusChanges(s: State, op: Op, id: nat)
    requires Allowed(s, op) && id in s.sessions
    ensures id in Step(s, op).sessions
    ensures var t := Step(s, op).sessions[id];
            && t.requests == s.sessions[id].requests + One(op.Request? && op.id == id)
            && t.abandons == s.sessions[id].abandons + One(op.Abandon? && op.id == id)
            && t.freed == s.sessions[id].freed + One(op.Abandon? && s.slot == Some(id))
  {
  }

  /** A start asks for the focus only once every earlier session has abandoned its own. */
  ghost predicate Calm(s: State, op: Op) {
    op.Request? ==> forall id :: id in s.sessions ==> s.sessions[id].requests == s.sessions[id].abandons
  }

  ghost predicate AllCalm(s: State, ops: seq<Op>)
    requires AllAllowed(s, ops)
    decreases ops
  {
    ops == [] || (Calm(s, ops[0]) && AllCalm(Step(s, ops[0]), ops[1..]))
  }

  ghost predicate FocusInv(s: State) {
    && (s.slot.Some? ==> s.slot.value in s.sessions)
    && forall id :: id in s.sessions ==>
      && s.sessions[id].freed == s.sessions[id].abandons
      && (s.slot == Some(id) <==> s.sessions[id].requests > s.sessions[id].abandons)
  }

  lemma StepKeepsFocusInv(s: State, op: Op)
    requires Inv(s) && FocusInv(s) && Allowed(s, op) && Calm(s, op)
    ensures FocusInv(Step(s, op))
  {
    var t := Step(s, op);
    SlotChanges(s, op);
    if op.Request? || op.Abandon? { assert Sound(s.sessions[op.id]); }
    forall id | id in t.sessions
      ensures t.sessions[id].freed == t.sessions[id].abandons
      ensures t.slot == Some(id) <==> t.sessions[id].requests > t.sessions[id].abandons
    {
      if id in s.sessions {
        FocusChanges(s, op, id);
        assert Sound(s.sessions[id]);
      } else {
        NewSession(s, op, id);
      }
    }
  }

  /** When starts wait for earlier teardowns, the system gets each granted focus back exactly once. */
  lemma {:induction false} FocusIsFreedOnce(s: State, ops: seq<Op>, id: nat)
    requires Inv(s) && FocusInv(s) && AllAllowed(s, ops) && AllCalm(s, ops) && id in RunAll(s, ops).sessions
    ensures var t := RunAll(s, ops).sessions[id];
            t.freed <= t.requests && (t.phase.Over? ==> t.freed == t.requests)
    decreases ops
  {
    if ops == [] {
      assert Sound(s.sessions[id]);
    } else {
      StepKeepsInv(s, ops[0]);
      StepKeepsFocusInv(s, ops[0]);
      FocusIsFreedOnce(Step(s, ops[0]), ops[1..], id);
    }
  }

  /** Asked for, not given back, and forgotten by the adapter. */
  ghost predicate Stuck(s: State, id: nat) {
    id in s.sessions && s.sessions[id].requests == 1 && s.sessions[id].freed == 0 && s.slot != Some(id)
  }

  lemma StepKeepsSlotInv(s: State, op: Op)
    requires Inv(s) && SlotInv(s) && Allowed(s, op)
    ensures SlotInv(Step(s, op))
  {
    var t := Step(s, op);
    SlotChanges(s, op);
    forall id | id in t.sessions ensures t.sessions[id].freed + One(t.slot == Some(id)) <= t.sessions[id].requests {
      if id in s.sessions {
        FocusChanges(s, op, id);
        assert Sound(s.sessions[id]);
      } else {
        NewSession(s, op, id);
      }
    }
  }

  /** A request is stuck exactly when another start asks for the focus while it is remembered. */
  lemma StuckExactlyByOverlap(s: State, op: Op, id: nat)
    requires Inv(s) && SlotInv(s) && Allowed(s, op) && id in s.sessions && !Stuck(s, id)
    ensures Stuck(Step(s, op), id) <==> op.Request? && op.id != id && s.slot == Some(id)
  {
    SlotChanges(s, op);
    FocusChanges(s, op, id);
    assert Sound(s.sessions[id]);
  }

  lemma StuckStays(s: State, op: Op, id: nat)
    requires Inv(s) && SlotInv(s) && Allowed(s, op) && Stuck(s, id)
    ensures Stuck(Step(s, op), id)
  {
    SlotChanges(s, op);
    FocusChanges(s, op, id);
    assert Sound(s.sessions[id]);
  }

  lemma {:induction false} StuckForGood(s: State, ops: seq<Op>, id: nat)
    requires Inv(s) && SlotInv(s) && AllAllowed(s, ops) && Stuck(s, id)
    ensures Stuck(RunAll(s, ops), id)
    decreases ops
  {
    if ops != [] {
      StepKeepsInv(s, ops[0]);
      StepKeepsSlotInv(s, ops[0]);
      StuckStays(s, ops[0], id);
      StuckForGood(Step(s, ops[0]), ops[1..], id);
    }
  }

  /** A start during a teardown loses its own focus to that teardown, and the older request is stuck. */
  lemma TeardownStealsFocus(s: State, a: nat, b: nat)
    requires Inv(s) && SlotInv(s) && a in s.sessions && s.sessions[a].phase.Releasing? && s.slot == Some(a)
    requires s.active.None? && s.opening.None? && b !in s.sessions
    ensures var ops := [Begin(b), Request(b, true), Release(a), Abandon(a)];
            && AllAllowed(s, ops)
            && Stuck(RunAll(s, ops), a)
            && At(RunAll(s, ops), b, Checking) && RunAll(s, ops).sessions[b].freed == 1
  {
    var s1 := Step(s, Begin(b));
    var s2 := Step(s1, Request(b, true));
    var s3 := Step(s2, Release(a));
    var s4 := Step(s3, Abandon(a));
    assert AllAllowed(s4, []) && RunAll(s4, []) == s4;
    RunCons(s3, Abandon(a), []);
    RunCons(s2, Release(a), [Abandon(a)]);
    RunCons(s1, Request(b, true), [Release(a), Abandon(a)]);
    RunCons(s, Begin(b), [Request(b, true), Release(a), Abandon(a)]);
    assert Sound(s.sessions[a]);
  }

  lemma RunCons(s: State, op: Op, ops: seq<Op>)
    requires Allowed(s, op) && AllAllowed(Step(s, op), ops)
    ensures AllAllowed(s, [op] + ops) && RunAll(s, [op] + ops) == RunAll(Step(s, op), ops)
  {
    assert ([op] + ops)[1..] == ops;
  }

  // ---------------------------------------------------------------- the published state

  /** The screen says "recording" although that session is over. */
  ghost predicate Stale(s: State) {
    s.shown.RecordingNow? && s.shown.id in s.sessions && s.sessions[s.shown.id].phase.Over?
  }

  lemma ShownChanges(s: State, op: Op)
    requires Allowed(s, op)
    ensures Step(s, op).shown == if op.Announce? then RecordingNow(op.id) else if op.Publish? then Result(op.id) else s.shown
  {
  }

  lemma OverChanges(s: State, op: Op, id: nat)
    requires Inv(s) && Allowed(s, op) && id in s.sessions
    ensures id in Step(s, op).sessions
    ensures Step(s, op).sessions[id].phase.Over? <==> s.sessions[id].phase.Over? || op == Publish(id)
  {
    assert Owners(s, id);
  }

  /** It goes stale exactly when a session ends before its own start has announced it. */
  lemma StaleExactlyWhen(s: State, op: Op)
    requires Inv(s) && Allowed(s, op) && !Stale(s)
    ensures Stale(Step(s, op)) <==> op.Announce? && s.sessions[op.id].phase.Over?
  {
    ShownChanges(s, op);
    if op.Announce? { OverChanges(s, op, op.id); }
    if s.shown.RecordingNow? && s.shown.id in s.sessions { OverChanges(s, op, s.shown.id); }
    if s.shown.RecordingNow? && s.shown.id !in s.sessions && s.shown.id in Step(s, op).sessions {
      NewSession(s, op, s.shown.id);
    }
  }

  /** Losing the focus right after activation, faster than the start publishes, shows a dead session. */
  lemma LossBeforeAnnouncement(s: State, id: nat)
    requires Inv(s) && s.active == Some(id) && id in s.sessions && s.sessions[id].announcing
    ensures var ops := [FocusLoss, Release(id), Abandon(id), Settle(id, true, true), Publish(id), Announce(id)];
            AllAllowed(s, ops) && Stale(RunAll(s, ops)) && RunAll(s, ops).active.None?
  {
    assert Owners(s, id);
    StepKeepsInv(s, FocusLoss);
    TeardownRuns(Step(s, FocusLoss), id);
    RunCons(s, FocusLoss, [Release(id), Abandon(id), Settle(id, true, true), Publish(id), Announce(id)]);
  }

  lemma TeardownRuns(s: State, id: nat)
    requires Inv(s) && id in s.sessions && s.sessions[id].phase.Releasing? && s.sessions[id].announcing
    ensures var ops := [Release(id), Abandon(id), Settle(id, true, true), Publish(id), Announce(id)];
            AllAllowed(s, ops) && Stale(RunAll(s, ops)) && RunAll(s, ops).active == s.active
  {
    StepKeepsInv(s, Release(id));
    var s2 := Step(s, Release(id));
    FreeSlotKeepsInv(s2);
    var s3 := Step(s2, Abandon(id));
    var s4 := Step(s3, Settle(id, true, true));
    EndingRuns(s4, id);
    RunCons(s3, Settle(id, true, true), [Publish(id), Announce(id)]);
    RunCons(s2, Abandon(id), [Settle(id, true, true), Publish(id), Announce(id)]);
    RunCons(s, Release(id), [Abandon(id), Settle(id, true, true), Publish(id), Announce(id)]);
  }

  lemma EndingRuns(s: State, id: nat)
    requires id in s.sessions && s.sessions[id].phase.Publishing? && s.sessions[id].announcing
    ensures AllAllowed(s, [Publish(id), Announce(id)]) && Stale(RunAll(s, [Publish(id), Announce(id)]))
    ensures RunAll(s, [Publish(id), Announce(id)]).active == s.active
  {
    var s5 := Step(s, Publish(id));
    var s6 := Step(s5, Announce(id));
    assert AllAllowed(s6, []) && RunAll(s6, []) == s6;
    RunCons(s5, Announce(id), []);
    RunCons(s, Publish(id), [Announce(id)]);
  }

  // ---------------------------------------------------------------- both failures, from a new recorder

  lemma {:induction false} RunAppend(s: State, first: seq<Op>, later: seq<Op>)
    requires AllAllowed(s, first) && AllAllowed(RunAll(s, first), later)
    ensures AllAllowed(s, first + later) && RunAll(s, first + later) == RunAll(RunAll(s, first), later)
    decreases first
  {
    if first == [] {
      assert first + later == later;
    } else {
      RunAppend(Step(s, first[0]), first[1..], later);
      RunCons(s, first[0], first[1..] + later);
      assert [first[0]] + (first[1..] + later) == first + later;
    }
  }

  /** A start whose every answer is yes. */
  function Starts(id: nat): seq<Op> {
    [Begin(id), Request(id, true), CheckLost(id), Create(id, true), StartRecording(id, true), Activate(id)]
  }

  lemma StartsRun(id: nat)
    ensures AllAllowed(START, Starts(id))
    ensures var s := RunAll(START, Starts(id));
            && Inv(s) && SlotInv(s) && s.sessions.Keys == {id} && s.active == Some(id) && s.opening.None?
            && s.slot == Some(id) && s.sessions[id].announcing
  {
    StartIsSound();
    var s1 := Step(START, Begin(id));
    var s2 := Step(s1, Request(id, true));
    StartsEnd(s2, id);
    RunCons(s1, Request(id, true), Starts(id)[2..]);
    assert [Request(id, true)] + Starts(id)[2..] == Starts(id)[1..];
    RunCons(START, Begin(id), Starts(id)[1..]);
    assert [Begin(id)] + Starts(id)[1..] == Starts(id);
    StepKeepsInv(START, Begin(id));
    StepKeepsSlotInv(START, Begin(id));
    StepKeepsInv(s1, Request(id, true));
    StepKeepsSlotInv(s1, Request(id, true));
    RunKeepsSlot(s2, Starts(id)[2..]);
  }

  lemma StartsEnd(s: State, id: nat)
    requires s.sessions.Keys == {id} && s.sessions[id].phase.Checking? && !s.lost && s.opening == Some(id) && s.active.None?
    ensures var ops := Starts(id)[2..];
            && AllAllowed(s, ops)
            && var t := RunAll(s, ops);
               t.sessions.Keys == {id} && t.active == Some(id) && t.opening.None? && t.slot == s.slot && t.sessions[id].announcing
  {
    var s3 := Step(s, CheckLost(id));
    var s4 := Step(s3, Create(id, true));
    var s5 := Step(s4, StartRecording(id, true));
    var s6 := Step(s5, Activate(id));
    assert AllAllowed(s6, []) && RunAll(s6, []) == s6;
    RunCons(s5, Activate(id), []);
    RunCons(s4, StartRecording(id, true), [Activate(id)]);
    RunCons(s3, Create(id, true), [StartRecording(id, true), Activate(id)]);
    RunCons(s, CheckLost(id), [Create(id, true), StartRecording(id, true), Activate(id)]);
    assert Starts(id)[2..] == [CheckLost(id), Create(id, true), StartRecording(id, true), Activate(id)];
  }

  lemma {:induction false} RunKeepsSlot(s: State, ops: seq<Op>)
    requires Inv(s) && SlotInv(s) && AllAllowed(s, ops)
    ensures Inv(RunAll(s, ops)) && SlotInv(RunAll(s, ops))
    decreases ops
  {
    if ops != [] {
      StepKeepsInv(s, ops[0]);
      StepKeepsSlotInv(s, ops[0]);
      RunKeepsSlot(Step(s, ops[0]), ops[1..]);
    }
  }

  /** From a new recorder: a note is cancelled, and the next one starts before its teardown has ended. */
  lemma FocusIsStolenFromStart(a: nat, b: nat)
    requires a != b
    ensures var ops := Starts(a) + ([CancelActive] + [Begin(b), Request(b, true), Release(a), Abandon(a)]);
            && AllAllowed(START, ops)
            && Stuck(RunAll(START, ops), a)
            && At(RunAll(START, ops), b, Checking) && RunAll(START, ops).sessions[b].freed == 1
  {
    StartsRun(a);
    var s := RunAll(START, Starts(a));
    assert Owners(s, a);
    StepKeepsInv(s, CancelActive);
    StepKeepsSlotInv(s, CancelActive);
    var ops := [Begin(b), Request(b, true), Release(a), Abandon(a)];
    TeardownStealsFocus(Step(s, CancelActive), a, b);
    RunCons(s, CancelActive, ops);
    RunAppend(START, Starts(a), [CancelActive] + ops);
  }

  /** From a new recorder: the focus is lost between the activation and its announcement. */
  lemma StaleFromStart(id: nat)
    ensures var ops := Starts(id) + [FocusLoss, Release(id), Abandon(id), Settle(id, true, true), Publish(id), Announce(id)];
            AllAllowed(START, ops) && Stale(RunAll(START, ops)) && RunAll(START, ops).active.None?
  {
    StartsRun(id);
    var s := RunAll(START, Starts(id));
    LossBeforeAnnouncement(s, id);
    RunAppend(START, Starts(id), [FocusLoss, Release(id), Abandon(id), Settle(id, true, true), Publish(id), Announce(id)]);
  }

  // ---------------------------------------------------------------- no session acts on another
  predicate HasOwner(op: Op) { !op.StopActive? && !op.CancelActive? && !op.FocusLoss? }

  /**
   * A step of one session, be it of its start, its worker or its teardown, never changes another session
   * or takes it out of being active; only the focus that a teardown gives back may be another's.
   */
  lemma StepTouchesItsOwn(s: State, op: Op, other: nat)
    requires Allowed(s, op) && HasOwner(op) && op.id != other && other in s.sessions
    ensures var t := Step(s, op);
            && other in t.sessions && (t.active == Some(other) <==> s.active == Some(other))
            && t.sessions[other] == s.sessions[other].(freed := t.sessions[other].freed)
            && (!op.Abandon? ==> t.sessions[other].freed == s.sessions[other].freed)
  {
  }

  /** Ending what is active takes exactly the active session, in the way asked for. */
  lemma TakeOutcome(s: State, op: Op, id: nat)
    requires Inv(s) && (op.StopActive? || op.CancelActive? || (op.FocusLoss? && s.opening.None?)) && id in s.sessions
    ensures var t := Step(s, op);
            && t.active == None && t.opening == s.opening && t.lost == s.lost && id in t.sessions
            && t.sessions[id] == if s.active != Some(id) then s.sessions[id]
                                 else s.sessions[id].(phase := Releasing(if op.StopActive? then Completing else Discarding))
  {
    if s.active.Some? { assert Owners(s, s.active.value); }
  }
}
