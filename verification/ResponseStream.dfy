/**
 * The lock protocol between attaching and cancelling a transient subscription. Every step is one
 * critical section or one call into the source; a watch, stops, stop-alls and error callbacks
 * interleave in any order. A pending subscription is known by a handle.
 */
module ResponseStream {
  import opened Basics

  /** The watching call: where it is between replacing the previous attempt and returning. */
  datatype Watch = Stopping | Opening | Opened | Threw | MustClose | Attached | Failed

  /** Whoever took the attempt out of the map, which only happens once. */
  datatype Closer = Nobody | Took | MustCloseToo | Through

  datatype Attempt = Attempt(response: string, cancelled: bool, subscription: bool, watch: Watch, closer: Closer, closes: nat)

  datatype State = State(subscriptions: map<string, nat>, attempts: map<nat, Attempt>)

  const START := State(map[], map[])

  datatype Op =
    | Begin(a: nat, response: string)
    | Register(a: nat)
    | Open(a: nat)
    | Throw(a: nat)
    | Attach(a: nat)
    | CloseAttached(a: nat)
    | Stop(response: string)
    | StopAll
    | Cancel(a: nat)
    | Mark(a: nat)
    | CloseMarked(a: nat)

  // ---------------------------------------------------------------- the critical sections

  function Taken(t: Attempt): Attempt { t.(closer := Took) }

  /** `subscriptions.remove(response)`. */
  function Unlink(s: State, response: string): State {
    if response in s.subscriptions && s.subscriptions[response] in s.attempts then
      var a := s.subscriptions[response];
      State(s.subscriptions - {response}, s.attempts[a := Taken(s.attempts[a])])
    else s
  }

  function UnlinkAll(s: State): State {
    State(map[], map a | a in s.attempts :: if Linked(s, a) then Taken(s.attempts[a]) else s.attempts[a])
  }

  predicate Linked(s: State, a: nat) {
    a in s.attempts && s.attempts[a].response in s.subscriptions && s.subscriptions[s.attempts[a].response] == a
  }

  predicate IsActive(s: State, a: nat) { Linked(s, a) && !s.attempts[a].cancelled }

  function With(s: State, a: nat, t: Attempt): State { s.(attempts := s.attempts[a := t]) }

  ghost predicate Allowed(s: State, op: Op) {
    match op
    case Begin(a, _) => a !in s.attempts
    case Register(a) => a in s.attempts && s.attempts[a].watch.Stopping?
    case Open(a) => a in s.attempts && s.attempts[a].watch.Opening?
    case Throw(a) => a in s.attempts && s.attempts[a].watch.Opening?
    case Attach(a) => a in s.attempts && s.attempts[a].watch.Opened?
    case CloseAttached(a) => a in s.attempts && s.attempts[a].watch.MustClose?
    case Stop(_) => true
    case StopAll => true
    case Cancel(a) => a in s.attempts && !s.attempts[a].watch.Stopping?
    case Mark(a) => a in s.attempts && s.attempts[a].closer.Took?
    case CloseMarked(a) => a in s.attempts && s.attempts[a].closer.MustCloseToo?
  }

  ghost function Step(s: State, op: Op): State
    requires Allowed(s, op)
  {
    match op
    case Begin(a, response) =>
      var stopped := Unlink(s, response);
      With(stopped, a, Attempt(response, false, false, Stopping, Nobody, 0))
    case Register(a) =>
      With(s, a, s.attempts[a].(watch := Opening)).(subscriptions := s.subscriptions[s.attempts[a].response := a])
    case Open(a) => With(s, a, s.attempts[a].(watch := Opened))
    case Throw(a) => With(s, a, s.attempts[a].(watch := Threw))
    case Attach(a) =>
      var t := s.attempts[a];
      With(s, a, t.(subscription := true, watch := if t.cancelled then MustClose else Attached))
    case CloseAttached(a) =>
      var t := s.attempts[a];
      With(s, a, t.(closes := t.closes + 1, watch := Attached))
    case Stop(response) => Unlink(s, response)
    case StopAll => UnlinkAll(s)
    case Cancel(a) =>
      var cancelled := if Linked(s, a) then Unlink(s, s.attempts[a].response) else s;
      if s.attempts[a].watch.Threw? then With(cancelled, a, cancelled.attempts[a].(watch := Failed)) else cancelled
    case Mark(a) =>
      var t := s.attempts[a];
      With(s, a, t.(cancelled := true, closer := if t.subscription then MustCloseToo else Through))
    case CloseMarked(a) =>
      var t := s.attempts[a];
      With(s, a, t.(closes := t.closes + 1, closer := Through))
  }

  ghost predicate AllAllowed(s: State, ops: seq<Op>)
    decreases ops
  {
    ops == [] || (Allowed(s, ops[0]) && AllAllowed(Step(s, ops[0]), ops[1..]))
  }

  ghost function RunAll(s: State, ops: seq<Op>): State
    requires AllAllowed(s, ops)
    decreases ops
  {
    if ops == [] then s else RunAll(Step(s, ops[0]), ops[1..])
  }

  // ---------------------------------------------------------------- each listener is closed once

  function One(b: bool): nat { if b then 1 else 0 }

  /** Exactly one of attach and cancel sees the other, and that one closes the listener. */
  ghost predicate Sound(t: Attempt) {
    && (t.subscription <==> t.watch.MustClose? || t.watch.Attached?)
    && (t.cancelled <==> t.closer.MustCloseToo? || t.closer.Through?)
    && (t.watch.Stopping? ==> t.closer.Nobody?)
    && t.closes + One(t.watch.MustClose?) + One(t.closer.MustCloseToo?) == One(t.subscription && t.cancelled)
  }

  ghost predicate LinkSound(s: State, response: string) {
    response in s.subscriptions ==>
      var a := s.subscriptions[response];
      && a in s.attempts && s.attempts[a].response == response
      && !s.attempts[a].watch.Stopping? && !s.attempts[a].watch.Failed? && s.attempts[a].closer.Nobody?
  }

  ghost predicate Inv(s: State) {
    && (forall a :: a in s.attempts ==> Sound(s.attempts[a]))
    && (forall r :: LinkSound(s, r))
  }

  lemma UnlinkKeepsInv(s: State, response: string)
    requires Inv(s)
    ensures Inv(Unlink(s, response)) && response !in Unlink(s, response).subscriptions
    ensures forall a :: a in s.attempts ==> a in Unlink(s, response).attempts
  {
    assert LinkSound(s, response);
    var t := Unlink(s, response);
    forall r ensures LinkSound(t, r) {
      assert LinkSound(s, r);
    }
  }

  lemma StopAllKeepsInv(s: State)
    requires Inv(s)
    ensures Inv(UnlinkAll(s))
  {
    forall a | a in s.attempts ensures Sound(UnlinkAll(s).attempts[a]) {
      if Linked(s, a) { assert LinkSound(s, s.attempts[a].response); }
    }
  }

  lemma CancelKeepsInv(s: State, a: nat)
    requires Inv(s) && Allowed(s, Cancel(a))
    ensures Inv(Step(s, Cancel(a)))
  {
    UnlinkKeepsInv(s, s.attempts[a].response);
    var t := Step(s, Cancel(a));
    forall r ensures LinkSound(t, r) {
      assert LinkSound(s, r) && LinkSound(Unlink(s, s.attempts[a].response), r);
    }
  }

  lemma StepKeepsInv(s: State, op: Op)
    requires Inv(s) && Allowed(s, op)
    ensures Inv(Step(s, op))
  {
    var t := Step(s, op);
    match op
    case Stop(response) => UnlinkKeepsInv(s, response);
    case StopAll => StopAllKeepsInv(s);
    case Cancel(a) => CancelKeepsInv(s, a);
    case Begin(a, response) =>
      UnlinkKeepsInv(s, response);
      forall r ensures LinkSound(t, r) { assert LinkSound(Unlink(s, response), r); }
    case _ =>
      forall r ensures LinkSound(t, r) { assert LinkSound(s, r); }
  }

  /** Once an attempt that was in the map is out of it, or cancelled, it is never active again. */
  lemma InactiveStays(s: State, op: Op, a: nat)
    requires Inv(s) && Allowed(s, op) && a in s.attempts && !s.attempts[a].watch.Stopping? && !IsActive(s, a)
    ensures var t := Step(s, op); a in t.attempts && !t.attempts[a].watch.Stopping? && !IsActive(t, a)
  {
    assert LinkSound(s, s.attempts[a].response);
  }

  /**
   * Every interleaving: a listener is closed at most once, only after its attempt was cancelled, and
   * exactly once when both the watching call and the cancelling one are done; a frame whose check
   * comes after the cancellation finds the attempt inactive.
   */
  lemma {:induction false} ClosedExactlyOnce(s: State, ops: seq<Op>, a: nat)
    requires Inv(s) && AllAllowed(s, ops) && a in RunAll(s, ops).attempts
    ensures Inv(RunAll(s, ops))
    ensures var t := RunAll(s, ops).attempts[a];
            && t.closes <= One(t.cancelled && t.subscription)
            && (t.watch.Attached? && t.closer.Through? ==> t.closes == 1)
            && (t.cancelled || !t.closer.Nobody? ==> !IsActive(RunAll(s, ops), a))
            && (a in s.attempts && !s.attempts[a].watch.Stopping? && !IsActive(s, a) ==> !IsActive(RunAll(s, ops), a))
    decreases ops
  {
    if ops == [] {
      assert Sound(s.attempts[a]) && LinkSound(s, s.attempts[a].response);
    } else {
      StepKeepsInv(s, ops[0]);
      if a in s.attempts && !s.attempts[a].watch.Stopping? && !IsActive(s, a) { InactiveStays(s, ops[0], a); }
      ClosedExactlyOnce(Step(s, ops[0]), ops[1..], a);
    }
  }

  // ---------------------------------------------------------------- no listener is left behind

  predicate Busy(t: Attempt) { !t.watch.Attached? && !t.watch.Failed? }

  /** No watch begins while another one for the same response has not returned. */
  ghost predicate Apart(s: State, op: Op) {
    op.Begin? ==> forall b :: b in s.attempts && s.attempts[b].response == op.response ==> !Busy(s.attempts[b])
  }

  ghost predicate AllApart(s: State, ops: seq<Op>)
    requires AllAllowed(s, ops)
    decreases ops
  {
    ops == [] || (Apart(s, ops[0]) && AllApart(Step(s, ops[0]), ops[1..]))
  }

  ghost predicate OneAtATime(s: State) {
    forall a, b ::
      (a in s.attempts && b in s.attempts && Busy(s.attempts[a]) && Busy(s.attempts[b])
       && s.attempts[a].response == s.attempts[b].response) ==> a == b
  }

  /** An attempt nobody took yet can still be reached: it is in the map, or not yet put there. */
  ghost predicate Reachable(s: State, a: nat) {
    a in s.attempts ==>
      && (s.attempts[a].closer.Nobody? && !s.attempts[a].watch.Failed? ==> Linked(s, a) || s.attempts[a].watch.Stopping?)
      && (s.attempts[a].watch.Stopping? ==> s.attempts[a].response !in s.subscriptions && s.attempts[a].closer.Nobody?)
  }

  ghost predicate NoLeak(s: State) { OneAtATime(s) && forall a :: Reachable(s, a) }

  lemma UnlinkKeepsReach(s: State, response: string, b: nat)
    requires Inv(s) && Reachable(s, b)
    ensures Reachable(Unlink(s, response), b)
  {
    assert LinkSound(s, response);
    if b in s.attempts { assert LinkSound(s, s.attempts[b].response); }
  }

  lemma StepKeepsReach(s: State, op: Op, b: nat)
    requires Inv(s) && NoLeak(s) && Allowed(s, op) && Apart(s, op)
    ensures Reachable(Step(s, op), b)
  {
    assert Reachable(s, b);
    if b in s.attempts { assert LinkSound(s, s.attempts[b].response); }
    match op
    case Begin(a, response) =>
      UnlinkKeepsInv(s, response);
      UnlinkKeepsReach(s, response, b);
    case Register(a) => assert Reachable(s, a);
    case Stop(response) => UnlinkKeepsReach(s, response, b);
    case Cancel(a) => UnlinkKeepsReach(s, s.attempts[a].response, b);
    case _ =>
  }

  lemma UnlinkKeepsBusy(s: State, response: string)
    requires Inv(s) && OneAtATime(s)
    ensures OneAtATime(Unlink(s, response))
    ensures Unlink(s, response).attempts.Keys == s.attempts.Keys
    ensures forall a :: a in s.attempts ==>
      Unlink(s, response).attempts[a].response == s.attempts[a].response
      && (Busy(Unlink(s, response).attempts[a]) <==> Busy(s.attempts[a]))
  {
    assert LinkSound(s, response);
  }

  lemma StepKeepsOneAtATime(s: State, op: Op)
    requires Inv(s) && OneAtATime(s) && Allowed(s, op) && Apart(s, op)
    ensures OneAtATime(Step(s, op))
  {
    match op
    case Begin(a, response) => UnlinkKeepsBusy(s, response);
    case Stop(response) => UnlinkKeepsBusy(s, response);
    case Cancel(a) => UnlinkKeepsBusy(s, s.attempts[a].response);
    case _ =>
  }

  lemma StartIsSound()
    ensures Inv(START) && NoLeak(START)
  {
    assert forall r :: LinkSound(START, r);
    assert forall a :: Reachable(START, a);
  }

  predicate Listening(t: Attempt) { t.watch.Attached? && t.closes == 0 }

  predicate AtRest(s: State) {
    forall a :: a in s.attempts ==> !Busy(s.attempts[a]) && (s.attempts[a].closer.Nobody? || s.attempts[a].closer.Through?)
  }

  /**
   * When watches for one response do not overlap: at rest, the listeners still open are exactly the
   * attempts in the map, so the next stop reaches every one of them.
   */
  lemma {:induction false} NoListenerIsLeaked(s: State, ops: seq<Op>)
    requires Inv(s) && NoLeak(s) && AllAllowed(s, ops) && AllApart(s, ops)
    ensures var t := RunAll(s, ops);
            && Inv(t) && NoLeak(t)
            && (AtRest(t) ==> forall a :: a in t.attempts ==> (Listening(t.attempts[a]) <==> Linked(t, a)))
    decreases ops
  {
    if ops == [] {
      forall a | a in s.attempts && AtRest(s) ensures Listening(s.attempts[a]) <==> Linked(s, a) {
        assert Sound(s.attempts[a]) && Reachable(s, a) && LinkSound(s, s.attempts[a].response);
      }
    } else {
      StepKeepsInv(s, ops[0]);
      StepKeepsOneAtATime(s, ops[0]);
      forall b ensures Reachable(Step(s, ops[0]), b) { StepKeepsReach(s, ops[0], b); }
      NoListenerIsLeaked(Step(s, ops[0]), ops[1..]);
    }
  }

  /** Out of the map, yet taken by nobody: neither stop nor an error will ever close its listener. */
  ghost predicate Lost(s: State, a: nat) {
    a in s.attempts && !s.attempts[a].watch.Stopping? && !s.attempts[a].watch.Failed? && !s.attempts[a].watch.Threw?
      && s.attempts[a].closer.Nobody? && !Linked(s, a)
  }

  /** An attempt is lost exactly when another watch of its response registers over it. */
  lemma LostExactlyByOverlap(s: State, op: Op, a: nat)
    requires Inv(s) && Allowed(s, op) && a in s.attempts && !Lost(s, a)
    ensures Lost(Step(s, op), a)
       <==> op.Register? && op.a != a && Linked(s, a) && s.attempts[op.a].response == s.attempts[a].response
            && !s.attempts[a].watch.Threw?
  {
    assert LinkSound(s, s.attempts[a].response);
    match op
    case Begin(b, response) => assert LinkSound(s, response);
    case Stop(response) => assert LinkSound(s, response);
    case Cancel(b) => assert LinkSound(s, s.attempts[b].response);
    case _ =>
  }

  lemma LostStays(s: State, op: Op, a: nat)
    requires Inv(s) && Allowed(s, op) && Lost(s, a) && !s.attempts[a].watch.Opening?
    ensures Lost(Step(s, op), a) && !Step(s, op).attempts[a].watch.Opening?
  {
    match op
    case Begin(b, response) => assert LinkSound(s, response);
    case Stop(response) => assert LinkSound(s, response);
    case Cancel(b) => assert LinkSound(s, s.attempts[b].response);
    case _ =>
  }

  lemma {:induction false} LostForGood(s: State, ops: seq<Op>, a: nat)
    requires Inv(s) && AllAllowed(s, ops) && Lost(s, a) && !s.attempts[a].watch.Opening?
    ensures Lost(RunAll(s, ops), a) && RunAll(s, ops).attempts[a].closes == 0
    decreases ops
  {
    assert Sound(s.attempts[a]);
    if ops != [] {
      StepKeepsInv(s, ops[0]);
      LostStays(s, ops[0], a);
      LostForGood(Step(s, ops[0]), ops[1..], a);
    }
  }

  /** Attempts stay and keep their response, and only a registration puts one into the map. */
  lemma StepKeepsAttempt(s: State, op: Op, a: nat)
    requires Inv(s) && Allowed(s, op) && a in s.attempts
    ensures var t := Step(s, op);
            && a in t.attempts && t.attempts[a].response == s.attempts[a].response
            && (s.attempts[a].watch.Stopping? && op != Register(a) ==> t.attempts[a].watch.Stopping?)
            && (Linked(t, a) ==> Linked(s, a) || op == Register(a))
  {
    assert LinkSound(s, s.attempts[a].response);
    match op
    case Begin(_, response) => assert LinkSound(s, response);
    case Stop(response) => assert LinkSound(s, response);
    case Cancel(b) => assert LinkSound(s, s.attempts[b].response);
    case _ =>
  }

  lemma NewAttempt(s: State, op: Op, a: nat)
    requires Inv(s) && Allowed(s, op) && a !in s.attempts && a in Step(s, op).attempts
    ensures op.Begin? && op.a == a
    ensures var t := Step(s, op).attempts[a]; t.response == op.response && t.watch.Stopping? && !Linked(Step(s, op), a)
  {
    if op.Begin? {
      UnlinkKeepsInv(s, op.response);
      assert LinkSound(s, op.response);
    } else if op.Stop? {
      UnlinkKeepsBusyKeys(s, op.response);
    } else if op.Cancel? {
      UnlinkKeepsBusyKeys(s, s.attempts[op.a].response);
    }
  }

  lemma UnlinkKeepsBusyKeys(s: State, response: string)
    ensures Unlink(s, response).attempts.Keys == s.attempts.Keys
  {
  }

  /** At rest, the open listeners are those in the map and those that were lost. */
  lemma AtRestListeners(s: State, a: nat)
    requires Inv(s) && AtRest(s) && a in s.attempts
    ensures Listening(s.attempts[a]) <==> Linked(s, a) || Lost(s, a)
  {
    assert Sound(s.attempts[a]) && LinkSound(s, s.attempts[a].response);
  }

  lemma RunCons(s: State, op: Op, ops: seq<Op>)
    requires Allowed(s, op) && AllAllowed(Step(s, op), ops)
    ensures AllAllowed(s, [op] + ops) && RunAll(s, [op] + ops) == RunAll(Step(s, op), ops)
  {
    assert ([op] + ops)[1..] == ops;
  }

  /** From a new stream: two watches of one response overlap, and the first is lost. */
  lemma OverlapFromStart(response: string)
    ensures var ops := [Begin(0, response), Begin(1, response), Register(0), Register(1), Open(0), Attach(0)];
            AllAllowed(START, ops) && Lost(RunAll(START, ops), 0) && Listening(RunAll(START, ops).attempts[0])
  {
    var s1 := Step(START, Begin(0, response));
    var s2 := Step(s1, Begin(1, response));
    var s3 := Step(s2, Register(0));
    var s4 := Step(s3, Register(1));
    var s5 := Step(s4, Open(0));
    var s6 := Step(s5, Attach(0));
    assert AllAllowed(s6, []) && RunAll(s6, []) == s6;
    RunCons(s5, Attach(0), []);
    RunCons(s4, Open(0), [Attach(0)]);
    RunCons(s3, Register(1), [Open(0), Attach(0)]);
    RunCons(s2, Register(0), [Register(1), Open(0), Attach(0)]);
    RunCons(s1, Begin(1, response), [Register(0), Register(1), Open(0), Attach(0)]);
    RunCons(START, Begin(0, response), [Begin(1, response), Register(0), Register(1), Open(0), Attach(0)]);
  }

  /** An error callback takes out its own attempt, if that is in the map, and never another. */
  lemma CancelTakesOnlyItsOwn(s: State, a: nat, b: nat)
    requires Inv(s) && Allowed(s, Cancel(a)) && b in s.attempts
    ensures var t := Step(s, Cancel(a));
            && !Linked(t, a)
            && (b != a ==> b in t.attempts && t.attempts[b] == s.attempts[b] && (Linked(t, b) <==> Linked(s, b)))
            && (!Linked(s, a) ==> t.subscriptions == s.subscriptions)
  {
    assert LinkSound(s, s.attempts[a].response);
  }

  // ---------------------------------------------------------------- the methods, run without interference

  const MAX_SEQUENCE := 999

  const MAX_CIPHERTEXT_CHARS := 16_384
  const MAX_TTL_MS := 600_000

  datatype Frame = Frame(sequence: int, ciphertext: string, expiresAtMs: int)

  datatype Event = Event(isStream: bool, expiresAtMs: int, body: string)

  /** `decode` is what Base64, UTF-8 and the event codec make of a text, if all three accept it. */
  function DecodeFrame(frame: Frame, now: int, decode: string -> Option<Event>): Option<Event> {
    if !(1 <= frame.sequence <= MAX_SEQUENCE) || frame.expiresAtMs <= now || frame.expiresAtMs > now + MAX_TTL_MS
       || !(1 <= |frame.ciphertext| <= MAX_CIPHERTEXT_CHARS) then None
    else
      var event := decode(frame.ciphertext);
      if event.None? || !event.value.isStream || event.value.expiresAtMs <= now then None else event
  }

  predicate IsIdentifier(s: string) {
    1 <= |s| <= 160 && forall c :: c in s ==>
      'A' <= c <= 'Z' || 'a' <= c <= 'z' || '0' <= c <= '9' || c in {'.', '_', ':', '-'}
  }

  predicate IsUlid(s: string) {
    |s| == 26 && forall c :: c in s ==>
      '0' <= c <= '9' || ('A' <= c <= 'Z' && c !in {'I', 'L', 'O', 'U'})
  }

  /** What cancelling makes of an attempt: its listener, if it has one, is closed this once. */
  function Cancelled(t: Attempt): Attempt {
    t.(cancelled := true, closer := Through, closes := if t.subscription then t.closes + 1 else t.closes)
  }

  /** Stopping a response: its attempt, if it has one, leaves the map and is cancelled. */
  function Stopped(s: State, response: string): State {
    if response in s.subscriptions && s.subscriptions[response] in s.attempts then
      var a := s.subscriptions[response];
      State(s.subscriptions - {response}, s.attempts[a := Cancelled(s.attempts[a])])
    else s
  }

  /** Stopping everything, when the attempts of the responses in `rest` are still to be closed. */
  function Swept(s: State, rest: set<string>): map<nat, Attempt> {
    map a | a in s.attempts ::
      if !Linked(s, a) then s.attempts[a]
      else if s.attempts[a].response in rest then Taken(s.attempts[a]) else Cancelled(s.attempts[a])
  }

  lemma SweepStarts(s: State)
    ensures Swept(s, s.subscriptions.Keys) == UnlinkAll(s).attempts
  {
  }

  lemma SweepOne(s: State, rest: set<string>, response: string)
    requires Inv(s) && response in rest && response in s.subscriptions
    ensures var a := s.subscriptions[response];
            && a in s.attempts && Swept(s, rest)[a] == Taken(s.attempts[a])
            && Swept(s, rest - {response}) == Swept(s, rest)[a := Cancelled(Swept(s, rest)[a])]
  {
    assert LinkSound(s, response);
    var a := s.subscriptions[response];
    forall b | b in s.attempts && b != a && Linked(s, b) ensures s.attempts[b].response != response {
    }
  }

  class FirebaseResponseStream {
    var subscriptions: map<string, nat>
    var attempts: map<nat, Attempt>

    ghost function Now(): State
      reads this
    {
      State(subscriptions, attempts)
    }

    constructor ()
      ensures Now() == START
    {
      subscriptions, attempts := map[], map[];
    }

    method Remove(response: string) returns (pending: Option<nat>)
      requires Inv(Now())
      modifies this
      ensures Inv(Now()) && Now() == Unlink(old(Now()), response)
      ensures pending == if response in old(subscriptions) then Some(old(subscriptions)[response]) else None
      ensures pending.Some? ==> pending.value in attempts && attempts[pending.value].closer.Took?
    {
      ghost var was := Now();
      UnlinkKeepsInv(was, response);
      assert LinkSound(was, response);
      if response !in subscriptions { return None; }
      var a := subscriptions[response];
      subscriptions := subscriptions - {response};
      attempts := attempts[a := Taken(attempts[a])];
      return Some(a);
    }

    method Close(pending: Option<nat>)
      requires Inv(Now()) && (pending.Some? ==> pending.value in attempts && attempts[pending.value].closer.Took?)
      modifies this
      ensures Inv(Now()) && subscriptions == old(subscriptions)
      ensures attempts == if pending.Some? then old(attempts)[pending.value := Cancelled(old(attempts)[pending.value])]
                          else old(attempts)
    {
      if pending.None? { return; }
      var a, t := pending.value, attempts[pending.value];
      StepKeepsInv(Now(), Mark(a));
      attempts := attempts[a := t.(cancelled := true, closer := if t.subscription then MustCloseToo else Through)];
      if t.subscription {
        StepKeepsInv(Now(), CloseMarked(a));
        var marked := attempts[a];
        attempts := attempts[a := marked.(closes := marked.closes + 1, closer := Through)];
      }
    }

    method StopResponse(response: string)
      requires Inv(Now())
      modifies this
      ensures Inv(Now()) && response !in subscriptions
      ensures Now() == Stopped(old(Now()), response)
    {
      ghost var was := Now();
      assert LinkSound(was, response);
      var pending := Remove(response);
      Close(pending);
    }

    method RemoveAll() returns (active: map<string, nat>)
      requires Inv(Now())
      modifies this
      ensures Inv(Now()) && Now() == UnlinkAll(old(Now())) && active == old(subscriptions)
    {
      StopAllKeepsInv(Now());
      active := subscriptions;
      attempts := map a | a in attempts ::
        if attempts[a].response in subscriptions && subscriptions[attempts[a].response] == a then Taken(attempts[a]) else attempts[a];
      subscriptions := map[];
    }

    /** Every attempt in the map is cancelled, its listener closed this once; the others are untouched. */
    method StopAll()
      requires Inv(Now())
      modifies this
      ensures Inv(Now()) && subscriptions == map[]
      ensures attempts == Swept(old(Now()), {})
    {
      ghost var was := Now();
      var active := RemoveAll();
      var rest := active.Keys;
      SweepStarts(was);
      while rest != {}
        invariant Inv(Now()) && subscriptions == map[] && rest <= active.Keys
        invariant attempts == Swept(was, rest)
        decreases |rest|
      {
        var response :| response in rest;
        SweepOne(was, rest, response);
        Close(Some(active[response]));
        rest := rest - {response};
      }
    }

    /** An error callback, or the exception path: only the attempt itself is ever cancelled. */
    method CancelAttempt(response: string, a: nat)
      requires Inv(Now()) && a in attempts && attempts[a].response == response
      modifies this
      ensures Inv(Now()) && !Linked(Now(), a)
      ensures old(Linked(Now(), a)) ==>
        subscriptions == old(subscriptions) - {response} && attempts == old(attempts)[a := Cancelled(old(attempts)[a])]
      ensures !old(Linked(Now(), a)) ==> subscriptions == old(subscriptions) && attempts == old(attempts)
    {
      if response in subscriptions && subscriptions[response] == a {
        StopResponse(response);
      }
    }

    /**
     * `errorFirst`: an error callback arrives before the source returns. The attempt ends attached and
     * active, or cancelled with its listener already closed, or with no listener at all.
     */
    method WatchFrames(ownerId: string, response: string, afterSequence: int, a: nat, opens: bool, errorFirst: bool)
      returns (r: Result<()>)
      requires Inv(Now()) && a !in attempts
      modifies this
      ensures Inv(Now())
      ensures r.Ok? <==> IsIdentifier(ownerId) && IsUlid(response) && 0 <= afterSequence <= MAX_SEQUENCE && opens
      ensures !IsIdentifier(ownerId) ==> r == Err("firebase_response_stream_owner_invalid")
      ensures IsIdentifier(ownerId) && !IsUlid(response) ==> r == Err("firebase_response_stream_response_invalid")
      ensures IsIdentifier(ownerId) && IsUlid(response) && !(0 <= afterSequence <= MAX_SEQUENCE) ==>
        r == Err("firebase_response_stream_cursor_invalid")
      ensures IsIdentifier(ownerId) && IsUlid(response) && 0 <= afterSequence <= MAX_SEQUENCE && !opens ==> r == Err("source")
      ensures r.Err? && r.error != "source" ==> unchanged(this)
      ensures r.Ok? && !errorFirst ==> IsActive(Now(), a) && Listening(attempts[a])
      ensures r.Ok? && errorFirst ==> a in attempts && !Linked(Now(), a) && attempts[a].watch.Attached? && attempts[a].closes == 1
      ensures r == Err("source") ==> !opens && !Linked(Now(), a) && a in attempts && attempts[a].watch.Failed? && attempts[a].closes == 0
      ensures r.Ok? || r == Err("source") ==>
        forall other :: other != response ==>
          && (other in subscriptions <==> other in old(subscriptions))
          && (other in subscriptions ==> subscriptions[other] == old(subscriptions)[other])
      ensures (r.Ok? || r == Err("source")) && response in old(subscriptions) ==>
        var b := old(subscriptions)[response];
        b in attempts && b in old(attempts) && attempts[b] == Cancelled(old(attempts)[b])
    {
      if !IsIdentifier(ownerId) { return Err("firebase_response_stream_owner_invalid"); }
      if !IsUlid(response) { return Err("firebase_response_stream_response_invalid"); }
      if !(0 <= afterSequence <= MAX_SEQUENCE) { return Err("firebase_response_stream_cursor_invalid"); }
      ghost var was := Now();
      assert LinkSound(was, response);
      StopResponse(response);
      Enter(response, a);
      r := OpenSource(response, a, opens, errorFirst);
    }

    /** A frame is delivered exactly when its attempt is active, it is new, within every limit, and decodes. */
    method OnFrame(response: string, a: nat, frame: Frame, afterSequence: int, now: int, decode: string -> Option<Event>)
      returns (delivered: Option<Event>)
      requires a in attempts && attempts[a].response == response
      ensures delivered.Some? <==>
        && IsActive(Now(), a) && afterSequence < frame.sequence && 1 <= frame.sequence <= MAX_SEQUENCE
        && now < frame.expiresAtMs <= now + MAX_TTL_MS && 1 <= |frame.ciphertext| <= MAX_CIPHERTEXT_CHARS
        && decode(frame.ciphertext).Some?
        && decode(frame.ciphertext).value.isStream && decode(frame.ciphertext).value.expiresAtMs > now
      ensures delivered.Some? ==> delivered == decode(frame.ciphertext)
    {
      var active := response in subscriptions && subscriptions[response] == a && !attempts[a].cancelled;
      if !active || frame.sequence <= afterSequence { return None; }
      delivered := DecodeFrame(frame, now, decode);
    }

    method OpenSource(response: string, a: nat, opens: bool, errorFirst: bool) returns (r: Result<()>)
      requires Inv(Now()) && Linked(Now(), a) && attempts[a] == Attempt(response, false, false, Opening, Nobody, 0)
      modifies this
      ensures Inv(Now()) && (r.Ok? <==> opens) && (r.Err? ==> r.error == "source")
      ensures a in attempts && (opens && !errorFirst ==> IsActive(Now(), a) && Listening(attempts[a]))
      ensures opens && errorFirst ==> !Linked(Now(), a) && attempts[a].watch.Attached? && attempts[a].closes == 1
      ensures !opens ==> !Linked(Now(), a) && attempts[a].watch.Failed? && attempts[a].closes == 0
      ensures subscriptions == if opens && !errorFirst then old(subscriptions) else old(subscriptions) - {response}
      ensures forall b :: b in old(attempts) && b != a ==> b in attempts && attempts[b] == old(attempts)[b]
    {
      if errorFirst { CancelAttempt(response, a); }
      if !opens {
        Fail(response, a);
        return Err("source");
      }
      Finish(a);
      return Ok(());
    }

    method Enter(response: string, a: nat)
      requires Inv(Now()) && a !in attempts && response !in subscriptions
      modifies this
      ensures Inv(Now()) && subscriptions == old(subscriptions)[response := a]
      ensures attempts == old(attempts)[a := Attempt(response, false, false, Opening, Nobody, 0)]
    {
      StepKeepsInv(Now(), Begin(a, response));
      attempts := attempts[a := Attempt(response, false, false, Stopping, Nobody, 0)];
      StepKeepsInv(Now(), Register(a));
      attempts := attempts[a := attempts[a].(watch := Opening)];
      subscriptions := subscriptions[response := a];
    }

    method Fail(response: string, a: nat)
      requires Inv(Now()) && a in attempts && attempts[a].watch.Opening? && attempts[a].response == response
      requires attempts[a].closes == 0
      modifies this
      ensures Inv(Now()) && a in attempts && attempts[a].watch.Failed? && attempts[a].closes == 0 && !Linked(Now(), a)
      ensures subscriptions == if old(Linked(Now(), a)) then old(subscriptions) - {response} else old(subscriptions)
      ensures forall b :: b in old(attempts) && b != a ==> b in attempts && attempts[b] == old(attempts)[b]
    {
      ghost var was := Now();
      StepKeepsInv(was, Throw(a));
      attempts := attempts[a := attempts[a].(watch := Threw)];
      CancelAttempt(response, a);
      StepKeepsInv(Now(), Cancel(a));
      attempts := attempts[a := attempts[a].(watch := Failed)];
      assert Sound(attempts[a]);
    }

    method Finish(a: nat)
      requires Inv(Now()) && a in attempts && attempts[a].watch.Opening? && attempts[a].closes == 0
      modifies this`attempts
      ensures Inv(Now())
      ensures a in attempts && attempts[a].watch.Attached? && attempts[a].response == old(attempts)[a].response
      ensures attempts[a].cancelled == old(attempts)[a].cancelled
      ensures attempts[a].closes == One(old(attempts)[a].cancelled)
      ensures forall b :: b in old(attempts) && b != a ==> b in attempts && attempts[b] == old(attempts)[b]
    {
      StepKeepsInv(Now(), Open(a));
      attempts := attempts[a := attempts[a].(watch := Opened)];
      StepKeepsInv(Now(), Attach(a));
      var t := attempts[a];
      attempts := attempts[a := t.(subscription := true, watch := if t.cancelled then MustClose else Attached)];
      if t.cancelled {
        StepKeepsInv(Now(), CloseAttached(a));
        var u := attempts[a];
        attempts := attempts[a := u.(closes := u.closes + 1, watch := Attached)];
      }
    }
  }
}
