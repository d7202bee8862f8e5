/**
 * The controller and its streams in any interleaving: responses start and end, session lookups answer
 * late, and the check that such a callback makes, the watch that follows it, the removal of a response
 * and the stop that follows that are separate steps.
 */
module StreamRuns {
  import opened Basics
  import RS = ResponseStream

  /**
   * What has happened to a response since a callback checked it: it is active; it was removed (or all
   * were cleared) and the stop is still to come; or the stop has gone by as well.
   */
  datatype Fate = Live | Removed | RemovedAndStopped

  /** A callback that has passed its check and has not registered its attempt. */
  datatype Callback = Callback(response: string, fate: Fate)

  /**
   * `stops` and `clears`: removals whose stop is still to come. `late`: attempts registered when their
   * response had been removed and stopped since the check, and neither restarted nor unlinked since.
   */
  datatype State = State(
    active: map<string, string>, stream: RS.State, callbacks: map<nat, Callback>,
    stops: map<nat, string>, clears: set<nat>, late: set<nat>)

  const START := State(map[], RS.START, map[], map[], {}, {})

  datatype Op =
    | Started(response: string, source: string)
    | CheckPassed(a: nat, response: string, source: string)
    | Begin(a: nat)
    | Register(a: nat)
    | Inner(op: RS.Op)
    | TerminalRemove(k: nat, response: string, source: string)
    | TerminalStop(k: nat)
    | Clear(k: nat)
    | StopAll(k: nat)

  /** The steps of a watch after its registration, of error callbacks and of those who close. */
  predicate IsInner(op: RS.Op) {
    op.Open? || op.Throw? || op.Attach? || op.CloseAttached? || op.Cancel? || op.Mark? || op.CloseMarked?
  }

  /** A stop that will still reach this response. */
  predicate Pending(s: State, response: string) { s.clears != {} || response in s.stops.Values }

  ghost predicate Allowed(s: State, op: Op) {
    match op
    case Started(_, _) => true
    case CheckPassed(a, response, source) =>
      a !in s.callbacks && a !in s.stream.attempts && response in s.active && s.active[response] == source
    case Begin(a) => a in s.callbacks && a !in s.stream.attempts
    case Register(a) => a in s.callbacks && RS.Allowed(s.stream, RS.Register(a))
    case Inner(op) => IsInner(op) && RS.Allowed(s.stream, op)
    case TerminalRemove(k, response, source) =>
      k !in s.stops && response in s.active && s.active[response] == source
    case TerminalStop(k) => k in s.stops
    case Clear(k) => k !in s.clears
    case StopAll(k) => k in s.clears
  }

  /** What a step does to the stream, if anything. */
  function StreamOp(s: State, op: Op): Option<RS.Op>
    requires op.Begin? ==> op.a in s.callbacks
    requires op.TerminalStop? ==> op.k in s.stops
  {
    match op
    case Begin(a) => Some(RS.Begin(a, s.callbacks[a].response))
    case Register(a) => Some(RS.Register(a))
    case Inner(op) => Some(op)
    case TerminalStop(k) => Some(RS.Stop(s.stops[k]))
    case StopAll(_) => Some(RS.StopAll)
    case _ => None
  }

  ghost function StreamAfter(s: State, op: Op): RS.State
    requires Allowed(s, op)
  {
    var o := StreamOp(s, op);
    if o.None? then s.stream else RS.Step(s.stream, o.value)
  }

  /** The table part of a step. */
  function Tables(s: State, op: Op): State
    requires op.TerminalStop? ==> op.k in s.stops
  {
    match op
    case Started(response, source) => s.(active := s.active[response := source])
    case TerminalRemove(k, response, _) => s.(active := s.active - {response}, stops := s.stops[k := response])
    case TerminalStop(k) => s.(stops := s.stops - {k})
    case Clear(k) => s.(active := map[], clears := s.clears + {k})
    case StopAll(k) => s.(clears := s.clears - {k})
    case _ => s
  }

  /** How a step changes what has happened to the response of a waiting callback. */
  function FateAfter(s: State, op: Op, c: Callback): Fate
    requires op.TerminalStop? ==> op.k in s.stops
  {
    var passed := !Pending(Tables(s, op), c.response);
    match op
    case Started(response, _) => if c.response == response then Live else c.fate
    case TerminalRemove(_, response, _) => if c.response == response then Removed else c.fate
    case Clear(_) => Removed
    case TerminalStop(_) => if c.fate.Removed? && passed then RemovedAndStopped else c.fate
    case StopAll(_) => if c.fate.Removed? && passed then RemovedAndStopped else c.fate
    case _ => c.fate
  }

  ghost function Step(s: State, op: Op): State
    requires Allowed(s, op)
  {
    var stream := StreamAfter(s, op);
    var waiting := match op
                   case CheckPassed(a, response, _) => s.callbacks[a := Callback(response, Live)]
                   case Register(a) => s.callbacks - {a}
                   case _ => s.callbacks;
    var registered := if op.Register? && s.callbacks[op.a].fate.RemovedAndStopped? then s.late + {op.a} else s.late;
    Tables(s, op).(
      stream := stream,
      callbacks := map a | a in waiting :: Callback(waiting[a].response, FateAfter(s, op, waiting[a])),
      late := set a | a in registered && RS.Linked(stream, a)
                      && !(op.Started? && stream.attempts[a].response == op.response))
  }

  ghost predicate AllAllowed(s: State, ops: seq<Op>)
    decreases ops
  {
    ops == [] || (Allowed(s, ops[0]) && AllAllowed(Step(s, ops[0]), ops[1..]))
  }

  ghost function RunAll(s: State, ops: seq<Op>): State
    requires AllAllowed(s, ops)
    decreases ops
  {
    if ops == [] then s else RunAll(Step(s, ops[0]), ops[1..])
  }

  // ---------------------------------------------------------------- when a listener outlives its response

  /** In the map for a response that has ended, with no stop to come. */
  ghost predicate Orphan(s: State, a: nat) {
    && RS.Linked(s.stream, a)
    && s.stream.attempts[a].response !in s.active && !Pending(s, s.stream.attempts[a].response)
  }

  /** The history that a callback carries agrees with the tables. */
  ghost predicate FateSound(s: State, a: nat) {
    a in s.callbacks ==>
      var r := s.callbacks[a].response;
      && (a in s.stream.attempts ==> s.stream.attempts[a].response == r && s.stream.attempts[a].watch.Stopping?)
      && s.callbacks[a].fate == if r in s.active then Live else if Pending(s, r) then Removed else RemovedAndStopped
  }

  ghost predicate LateSound(s: State, a: nat) {
    && (Orphan(s, a) ==> a in s.late)
    && (a in s.late ==> RS.Linked(s.stream, a) && s.stream.attempts[a].response !in s.active)
  }

  ghost predicate Inv(s: State) {
    && RS.Inv(s.stream)
    && (forall a :: FateSound(s, a))
    && (forall a :: LateSound(s, a))
  }

  lemma StreamKeepsInv(s: State, op: Op)
    requires Inv(s) && Allowed(s, op)
    ensures RS.Inv(StreamAfter(s, op))
  {
    if StreamOp(s, op).Some? { RS.StepKeepsInv(s.stream, StreamOp(s, op).value); }
  }

  /** Only a registration puts an attempt into the map; attempts keep their response. */
  lemma LinksOnlyByRegister(s: State, op: Op, a: nat)
    requires Inv(s) && Allowed(s, op)
    ensures var t := StreamAfter(s, op);
            && (a in s.stream.attempts ==>
                  a in t.attempts && t.attempts[a].response == s.stream.attempts[a].response)
            && (RS.Linked(t, a) ==> a in s.stream.attempts && (RS.Linked(s.stream, a) || op == Register(a)))
            && (op == Register(a) ==> RS.Linked(t, a) && a in s.stream.attempts)
  {
    var o := StreamOp(s, op);
    if o.Some? {
      if a in s.stream.attempts {
        RS.StepKeepsAttempt(s.stream, o.value, a);
      } else if a in StreamAfter(s, op).attempts {
        RS.NewAttempt(s.stream, o.value, a);
      }
    }
  }

  /** A stop leaves nothing of its response in the map. */
  lemma StopsUnlink(s: State, op: Op, a: nat)
    requires Inv(s) && Allowed(s, op) && RS.Linked(StreamAfter(s, op), a)
    ensures op.TerminalStop? ==> StreamAfter(s, op).attempts[a].response != s.stops[op.k]
    ensures !op.StopAll?
  {
    if op.TerminalStop? { assert RS.LinkSound(s.stream, s.stops[op.k]); }
  }

  lemma PendingAfter(s: State, op: Op, response: string)
    requires Allowed(s, op)
    ensures var t := Step(s, op);
            && (op.TerminalRemove? ==> (Pending(t, response) <==> Pending(s, response) || response == op.response))
            && (op.Clear? ==> Pending(t, response))
            && (op.TerminalStop? && response != s.stops[op.k] ==> (Pending(t, response) <==> Pending(s, response)))
            && (!op.TerminalRemove? && !op.Clear? && !op.TerminalStop? && !op.StopAll? ==>
                  (Pending(t, response) <==> Pending(s, response)))
            && (Pending(t, response) && (op.TerminalStop? || op.StopAll?) ==> Pending(s, response))
  {
    var t := Step(s, op);
    if op.TerminalRemove? {
      assert s.stops[op.k := op.response].Values == s.stops.Values + {op.response} by {
        forall v | v in s.stops.Values ensures v in s.stops[op.k := op.response].Values {
          var k :| k in s.stops && s.stops[k] == v;
          assert s.stops[op.k := op.response][k] == v;
        }
        assert s.stops[op.k := op.response][op.k] == op.response;
      }
    }
    if op.TerminalStop? {
      var rest := s.stops - {op.k};
      forall v | v in s.stops.Values && v != s.stops[op.k] ensures v in rest.Values {
        var k :| k in s.stops && s.stops[k] == v;
        assert rest[k] == v;
      }
    }
  }

  lemma StepKeepsFate(s: State, op: Op, a: nat)
    requires Inv(s) && Allowed(s, op)
    ensures FateSound(Step(s, op), a)
  {
    var t := Step(s, op);
    assert FateSound(s, a);
    if a in t.callbacks {
      PendingAfter(s, op, t.callbacks[a].response);
      StreamPartOfCallback(s, op, a);
    }
  }

  lemma StreamPartOfCallback(s: State, op: Op, a: nat)
    requires Inv(s) && Allowed(s, op) && a in Step(s, op).callbacks
    ensures var t := Step(s, op);
            a in t.stream.attempts ==>
              t.stream.attempts[a].response == t.callbacks[a].response && t.stream.attempts[a].watch.Stopping?
  {
    assert FateSound(s, a);
    var o := StreamOp(s, op);
    if o.Some? {
      if a in s.stream.attempts {
        RS.StepKeepsAttempt(s.stream, o.value, a);
      } else if a in StreamAfter(s, op).attempts {
        RS.NewAttempt(s.stream, o.value, a);
      }
    }
  }

  /**
   * An attempt becomes an orphan exactly when it registers after both the removal of its response and
   * the stop that followed have fallen between the callback's check and this registration.
   */
  lemma OrphanExactlyByLateWatch(s: State, op: Op, a: nat)
    requires Inv(s) && Allowed(s, op) && !Orphan(s, a)
    ensures Orphan(Step(s, op), a) <==> op == Register(a) && s.callbacks[a].fate.RemovedAndStopped?
  {
    var t := Step(s, op);
    LinksOnlyByRegister(s, op, a);
    assert FateSound(s, a);
    if RS.Linked(t.stream, a) {
      StopsUnlink(s, op, a);
      PendingAfter(s, op, t.stream.attempts[a].response);
    }
  }

  lemma StepKeepsLate(s: State, op: Op, a: nat)
    requires Inv(s) && Allowed(s, op)
    ensures LateSound(Step(s, op), a)
  {
    assert LateSound(s, a) && FateSound(s, a);
    LinksOnlyByRegister(s, op, a);
    if !Orphan(s, a) { OrphanExactlyByLateWatch(s, op, a); }
  }

  lemma StepKeepsInv(s: State, op: Op)
    requires Inv(s) && Allowed(s, op)
    ensures Inv(Step(s, op))
  {
    StreamKeepsInv(s, op);
    forall a ensures FateSound(Step(s, op), a) && LateSound(Step(s, op), a) {
      StepKeepsFate(s, op, a);
      StepKeepsLate(s, op, a);
    }
  }

  ghost predicate AtRest(s: State) {
    s.callbacks == map[] && s.stops == map[] && s.clears == {} && RS.AtRest(s.stream)
  }

  /** An open listener of a response that is not active. */
  ghost predicate Outlives(s: State, a: nat) {
    a in s.stream.attempts && RS.Listening(s.stream.attempts[a]) && s.stream.attempts[a].response !in s.active
  }

  /**
   * Every run: at rest, a listener outlives its response if and only if it registered late and its
   * response has neither been started again nor stopped since, or another watch registered over it.
   */
  lemma {:induction false} OutlivesExactlyWhenLate(s: State, ops: seq<Op>, a: nat)
    requires Inv(s) && AllAllowed(s, ops)
    ensures var t := RunAll(s, ops);
            && Inv(t)
            && (AtRest(t) ==>
                  (Outlives(t, a) <==> a in t.late || (RS.Lost(t.stream, a) && t.stream.attempts[a].response !in t.active)))
    decreases ops
  {
    if ops == [] {
      assert LateSound(s, a);
      if AtRest(s) && a in s.stream.attempts { RS.AtRestListeners(s.stream, a); }
    } else {
      StepKeepsInv(s, ops[0]);
      OutlivesExactlyWhenLate(Step(s, ops[0]), ops[1..], a);
    }
  }

  // ---------------------------------------------------------------- when watches do not overlap

  ghost predicate Apart(s: State, op: Op)
    requires Allowed(s, op)
  {
    StreamOp(s, op).Some? ==> RS.Apart(s.stream, StreamOp(s, op).value)
  }

  ghost predicate AllApart(s: State, ops: seq<Op>)
    requires AllAllowed(s, ops)
    decreases ops
  {
    ops == [] || (Apart(s, ops[0]) && AllApart(Step(s, ops[0]), ops[1..]))
  }

  lemma StepKeepsNoLeak(s: State, op: Op)
    requires Inv(s) && Allowed(s, op) && Apart(s, op) && RS.NoLeak(s.stream)
    ensures RS.NoLeak(StreamAfter(s, op))
  {
    var o := StreamOp(s, op);
    if o.Some? {
      RS.StepKeepsOneAtATime(s.stream, o.value);
      forall b ensures RS.Reachable(RS.Step(s.stream, o.value), b) { RS.StepKeepsReach(s.stream, o.value, b); }
    }
  }

  lemma {:induction false} ApartRunKeepsNoLeak(s: State, ops: seq<Op>)
    requires Inv(s) && AllAllowed(s, ops) && AllApart(s, ops) && RS.NoLeak(s.stream)
    ensures RS.NoLeak(RunAll(s, ops).stream)
    decreases ops
  {
    if ops != [] {
      StepKeepsInv(s, ops[0]);
      StepKeepsNoLeak(s, ops[0]);
      ApartRunKeepsNoLeak(Step(s, ops[0]), ops[1..]);
    }
  }

  lemma StartIsSound()
    ensures Inv(START) && RS.NoLeak(START.stream)
  {
    RS.StartIsSound();
    assert forall a :: FateSound(START, a) && LateSound(START, a);
  }

  /**
   * Every run of a new controller in which the watches of one response do not overlap: at rest, a
   * listener is open for a response that is not active if and only if it registered late.
   */
  lemma OnlyLateWatchesOutlive(ops: seq<Op>, a: nat)
    requires AllAllowed(START, ops) && AllApart(START, ops) && AtRest(RunAll(START, ops))
    ensures Outlives(RunAll(START, ops), a) <==> a in RunAll(START, ops).late
  {
    StartIsSound();
    OutlivesExactlyWhenLate(START, ops, a);
    ApartRunKeepsNoLeak(START, ops);
    assert RS.Reachable(RunAll(START, ops).stream, a);
  }

  lemma RunCons(s: State, op: Op, ops: seq<Op>)
    requires Allowed(s, op) && AllAllowed(Step(s, op), ops)
    ensures AllAllowed(s, [op] + ops) && RunAll(s, [op] + ops) == RunAll(Step(s, op), ops)
  {
    assert ([op] + ops)[1..] == ops;
  }

  // ---------------------------------------------------------------- the failure, from a new controller

  /** One callback waits for its watch; `stops` are the stops still to come. */
  function Waiting(r: string, fate: Fate, active: map<string, string>, stops: map<nat, string>): State {
    State(active, RS.START, map[0 := Callback(r, fate)], stops, {}, {})
  }

  function AttemptAt(r: string, watch: RS.Watch): RS.Attempt {
    RS.Attempt(r, false, watch.Attached?, watch, RS.Nobody, 0)
  }

  /** The attempt has registered late. */
  function Watching(r: string, watch: RS.Watch): State {
    State(map[], RS.State(map[r := 0], map[0 := AttemptAt(r, watch)]), map[], map[], {}, {0})
  }

  lemma CheckRuns(r: string, source: string)
    ensures var ops := [Started(r, source), CheckPassed(0, r, source)];
            AllAllowed(START, ops) && RunAll(START, ops) == Waiting(r, Live, map[r := source], map[])
  {
    var s1 := Step(START, Started(r, source));
    assert s1 == START.(active := map[r := source]);
    var s2 := Step(s1, CheckPassed(0, r, source));
    assert s2 == Waiting(r, Live, map[r := source], map[]);
    assert AllAllowed(s2, []) && RunAll(s2, []) == s2;
    RunCons(s1, CheckPassed(0, r, source), []);
    RunCons(START, Started(r, source), [CheckPassed(0, r, source)]);
  }

  lemma EndRuns(r: string, source: string)
    ensures var s, ops := Waiting(r, Live, map[r := source], map[]), [TerminalRemove(0, r, source), TerminalStop(0)];
            AllAllowed(s, ops) && RunAll(s, ops) == Waiting(r, RemovedAndStopped, map[], map[])
  {
    var s := Waiting(r, Live, map[r := source], map[]);
    var s1 := Step(s, TerminalRemove(0, r, source));
    assert s1.active == map[] && s1.stops == map[0 := r];
    assert s1 == Waiting(r, Removed, map[], map[0 := r]);
    var s2 := Step(s1, TerminalStop(0));
    assert s2.stops == map[] && !Pending(s2, r);
    assert s2 == Waiting(r, RemovedAndStopped, map[], map[]);
    assert AllAllowed(s2, []) && RunAll(s2, []) == s2;
    RunCons(s1, TerminalStop(0), []);
    RunCons(s, TerminalRemove(0, r, source), [TerminalStop(0)]);
  }

  lemma RegisterRuns(r: string)
    ensures var s, ops := Waiting(r, RemovedAndStopped, map[], map[]), [Begin(0), Register(0)];
            AllAllowed(s, ops) && RunAll(s, ops) == Watching(r, RS.Opening)
  {
    var s := Waiting(r, RemovedAndStopped, map[], map[]);
    var s1 := Step(s, Begin(0));
    assert s1.stream == RS.State(map[], map[0 := AttemptAt(r, RS.Stopping)]);
    assert s1 == s.(stream := s1.stream);
    var s2 := Step(s1, Register(0));
    assert s2.stream == Watching(r, RS.Opening).stream;
    assert s2.callbacks == map[] && s2.late == {0};
    assert s2 == Watching(r, RS.Opening);
    assert AllAllowed(s2, []) && RunAll(s2, []) == s2;
    RunCons(s1, Register(0), []);
    RunCons(s, Begin(0), [Register(0)]);
  }

  lemma AttachRuns(r: string)
    ensures var s, ops := Watching(r, RS.Opening), [Inner(RS.Open(0)), Inner(RS.Attach(0))];
            AllAllowed(s, ops) && RunAll(s, ops) == Watching(r, RS.Attached)
  {
    var s := Watching(r, RS.Opening);
    var s1 := Step(s, Inner(RS.Open(0)));
    assert s1.stream == Watching(r, RS.Opened).stream && s1.late == {0};
    assert s1 == Watching(r, RS.Opened);
    var s2 := Step(s1, Inner(RS.Attach(0)));
    assert s2.stream == Watching(r, RS.Attached).stream && s2.late == {0};
    assert s2 == Watching(r, RS.Attached);
    assert AllAllowed(s2, []) && RunAll(s2, []) == s2;
    RunCons(s1, Inner(RS.Attach(0)), []);
    RunCons(s, Inner(RS.Open(0)), [Inner(RS.Attach(0))]);
  }

  lemma {:induction false} RunAppend(s: State, first: seq<Op>, later: seq<Op>)
    requires AllAllowed(s, first) && AllAllowed(RunAll(s, first), later)
    ensures AllAllowed(s, first + later) && RunAll(s, first + later) == RunAll(RunAll(s, first), later)
    decreases first
  {
    if first == [] {
      assert first + later == later;
    } else {
      RunAppend(Step(s, first[0]), first[1..], later);
      RunCons(s, first[0], first[1..] + later);
      assert [first[0]] + (first[1..] + later) == first + later;
    }
  }

  lemma FourRuns(a: seq<Op>, b: seq<Op>, c: seq<Op>, d: seq<Op>, s1: State, s2: State, s3: State, s4: State)
    requires AllAllowed(START, a) && RunAll(START, a) == s1
    requires AllAllowed(s1, b) && RunAll(s1, b) == s2
    requires AllAllowed(s2, c) && RunAll(s2, c) == s3
    requires AllAllowed(s3, d) && RunAll(s3, d) == s4
    ensures AllAllowed(START, a + b + c + d) && RunAll(START, a + b + c + d) == s4
  {
    RunAppend(START, a, b);
    RunAppend(START, a + b, c);
    RunAppend(START, a + b + c, d);
  }

  lemma WatchingOutlives(r: string)
    ensures AtRest(Watching(r, RS.Attached)) && Outlives(Watching(r, RS.Attached), 0)
  {
  }

  /** The response ends, and its stop runs, between the check of its callback and the watch. */
  lemma EndBetweenCheckAndWatch(r: string, source: string)
    ensures var ops := [Started(r, source), CheckPassed(0, r, source)] + [TerminalRemove(0, r, source), TerminalStop(0)]
                       + [Begin(0), Register(0)] + [Inner(RS.Open(0)), Inner(RS.Attach(0))];
            && AllAllowed(START, ops) && AtRest(RunAll(START, ops)) && Outlives(RunAll(START, ops), 0)
  {
    CheckRuns(r, source);
    EndRuns(r, source);
    RegisterRuns(r);
    AttachRuns(r);
    FourRuns([Started(r, source), CheckPassed(0, r, source)], [TerminalRemove(0, r, source), TerminalStop(0)],
             [Begin(0), Register(0)], [Inner(RS.Open(0)), Inner(RS.Attach(0))],
             Waiting(r, Live, map[r := source], map[]), Waiting(r, RemovedAndStopped, map[], map[]),
             Watching(r, RS.Opening), Watching(r, RS.Attached));
    WatchingOutlives(r);
  }

  /** After a start, of all ends of that response only that of the new attempt counts. */
  lemma OnlyTheLatestStartEnds(s: State, k: nat, response: string, source: string, other: string)
    requires k !in s.stops
    ensures var t := Step(s, Started(response, source));
            Allowed(t, TerminalRemove(k, response, other)) <==> other == source
  {
  }
}
