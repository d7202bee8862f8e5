/**
 * The recorder's methods, run without interference: the machine of module Recorder with its fields
 * updated in place. What the platform answers is an input.
 */
module VoiceRecorder {
  import opened Basics
  import opened Recorder

  datatype Creation = Opened | Forbidden | Unavailable

  /** What the platform answers to one start; the focus may be lost before the check, or after it. */
  datatype Answers = Answers(
    granted: bool, lossEarly: bool, creation: Creation, initialized: bool, started: bool, lossLate: bool)

  datatype Outcome = Recording | Failed(reason: string)

  /** Why a start that had the focus at its check fails, if it does. */
  function FailureAfterCheck(a: Answers): string {
    match a.creation
    case Forbidden => "voice_audio_record_permission_refusee"
    case Unavailable => "voice_audio_record_indisponible"
    case Opened =>
      if !a.initialized then "voice_audio_record_invalide"
      else if !a.started then "voice_audio_record_demarrage_echoue"
      else "voice_audio_focus_perdu"
  }

  class VoiceNoteRecorder {
    var sessions: map<nat, Session>
    var active: Option<nat>
    var opening: Option<nat>
    var focusLostWhileOpening: bool
    var slot: Option<nat>
    var shown: Shown

    ghost function Now(): State
      reads this
    {
      State(sessions, active, opening, focusLostWhileOpening, slot, shown)
    }

    ghost predicate In(id: nat, phase: Phase)
      reads this
    {
      id in sessions && sessions[id].phase == phase
    }

    constructor ()
      ensures Now() == START && Inv(Now())
    {
      sessions, active, opening, focusLostWhileOpening, slot, shown := map[], None, None, false, None, Idle;
    }

    // ---------------------------------------------------------------- critical sections and resource calls

    method BeginOpening(id: nat) returns (ok: bool)
      requires Inv(Now()) && id !in sessions
      modifies this
      ensures Inv(Now()) && Now() == Step(old(Now()), Begin(id))
      ensures ok <==> old(active).None? && old(opening).None?
    {
      StepKeepsInv(Now(), Begin(id));
      ok := active.None? && opening.None?;
      sessions := sessions[id := Session(if ok then Requesting else Rejecting, NotStarted, 0, false, 0, 0, 0, 0, 0, 0, 0, 0)];
      if ok { opening, focusLostWhileOpening := Some(id), false; }
    }

    method RequestFocus(id: nat, granted: bool)
      requires Inv(Now()) && In(id, Requesting)
      modifies this`sessions, this`slot
      ensures Inv(Now()) && Now() == Step(old(Now()), Request(id, granted))
    {
      StepKeepsInv(Now(), Request(id, granted));
      var t := sessions[id];
      sessions := sessions[id := t.(requests := t.requests + 1, phase := if granted then Checking else GivingUp)];
      slot := Some(id);
    }

    method TakeActive(ending: Ending)
      requires Inv(Now())
      modifies this`sessions, this`active
      ensures Inv(Now()) && Now() == Take(old(Now()), ending)
    {
      TakeKeepsInv(Now(), ending);
      if active.Some? && active.value in sessions {
        sessions := sessions[active.value := sessions[active.value].(phase := Releasing(ending))];
        active := None;
      }
    }

    method EndOpening(id: nat)
      requires Inv(Now()) && In(id, GivingUp)
      modifies this`sessions, this`opening, this`focusLostWhileOpening
      ensures Inv(Now()) && Now() == Step(old(Now()), Op.EndOpening(id))
    {
      StepKeepsInv(Now(), Op.EndOpening(id));
      sessions := sessions[id := sessions[id].(phase := Releasing(Discarding))];
      opening, focusLostWhileOpening := None, false;
    }

    method ActivateSession(id: nat) returns (ok: bool)
      requires Inv(Now()) && In(id, Activating)
      modifies this`sessions, this`opening, this`focusLostWhileOpening, this`active
      ensures Inv(Now()) && Now() == Step(old(Now()), Activate(id))
      ensures ok <==> old(opening).Some? && !old(focusLostWhileOpening) && old(active).None?
    {
      StepKeepsInv(Now(), Activate(id));
      ok := opening.Some? && !focusLostWhileOpening && active.None?;
      opening, focusLostWhileOpening := None, false;
      sessions := sessions[id := sessions[id].(phase := if ok then Live else Releasing(Discarding), announcing := ok)];
      if ok { active := Some(id); }
    }

    method ReleaseRecorder(id: nat)
      requires Inv(Now()) && id in sessions && sessions[id].phase.Releasing?
      modifies this`sessions
      ensures Inv(Now()) && Now() == Step(old(Now()), Release(id))
    {
      StepKeepsInv(Now(), Release(id));
      var t := sessions[id];
      sessions := sessions[id :=
        t.(released := if t.created > 0 then t.released + 1 else t.released, phase := Abandoning(t.phase.ending))];
    }

    method AbandonFocus(id: nat)
      requires Inv(Now()) && id in sessions && sessions[id].phase.Abandoning?
      modifies this`sessions, this`slot
      ensures Inv(Now()) && Now() == Step(old(Now()), Abandon(id))
    {
      StepKeepsInv(Now(), Abandon(id));
      if slot.Some? && slot.value in sessions {
        sessions := sessions[slot.value := sessions[slot.value].(freed := sessions[slot.value].freed + 1)];
      }
      slot := None;
      var u := sessions[id];
      sessions := sessions[id := u.(abandons := u.abandons + 1, phase := Settling(u.phase.ending))];
    }

    method SettleSink(id: nat, longEnough: bool, finalized: bool) returns (completes: bool)
      requires Inv(Now()) && id in sessions && (sessions[id].phase.Settling? || sessions[id].phase.Rejecting?)
      modifies this`sessions
      ensures Inv(Now()) && Now() == Step(old(Now()), Settle(id, longEnough, finalized))
      ensures completes <==>
        old(sessions)[id].phase == Settling(Completing) && longEnough && old(sessions)[id].bytes > 0 && finalized
    {
      StepKeepsInv(Now(), Settle(id, longEnough, finalized));
      var t := sessions[id];
      completes := t.phase.Settling? && t.phase.ending.Completing? && longEnough && t.bytes > 0 && finalized;
      sessions := sessions[id := if completes then t.(completed := t.completed + 1, phase := Publishing)
                                 else t.(discarded := t.discarded + 1, phase := Publishing)];
    }

    method PublishResult(id: nat)
      requires Inv(Now()) && In(id, Publishing)
      modifies this`sessions, this`shown
      ensures Inv(Now()) && Now() == Step(old(Now()), Publish(id))
    {
      StepKeepsInv(Now(), Publish(id));
      var u := sessions[id];
      sessions := sessions[id := u.(results := u.results + 1, phase := Over)];
      shown := Result(id);
    }

    // ---------------------------------------------------------------- ending a session

    method CloseAudio(id: nat)
      requires Inv(Now()) && id in sessions && sessions[id].phase.Releasing?
      modifies this`sessions, this`slot
      ensures Inv(Now()) && In(id, Settling(old(sessions)[id].phase.ending))
      ensures sessions[id].bytes == old(sessions)[id].bytes
    {
      ReleaseRecorder(id);
      ghost var released := Now();
      FreeSlotKeepsInv(released);
      AbandonFocus(id);
    }

    /** `complete` and `discard`: after either, the session is over and every resource given back. */
    method Finish(id: nat, longEnough: bool, finalized: bool) returns (completed: bool)
      requires Inv(Now()) && id in sessions && (sessions[id].phase.Releasing? || sessions[id].phase.Rejecting?)
      modifies this`sessions, this`slot, this`shown
      ensures Inv(Now()) && In(id, Over) && shown == Result(id)
      ensures sessions[id].completed == One(completed) && sessions[id].discarded == One(!completed)
      ensures completed <==>
        old(sessions)[id].phase == Releasing(Completing) && longEnough && old(sessions)[id].bytes > 0 && finalized
      ensures sessions[id].released == sessions[id].created && sessions[id].abandons == sessions[id].requests
    {
      assert Sound(sessions[id]);
      if sessions[id].phase.Releasing? { CloseAudio(id); }
      assert Sound(sessions[id]);
      completed := SettleSink(id, longEnough, finalized);
      PublishResult(id);
      assert Sound(sessions[id]);
    }

    /** Stopping ends the active session, if there is one, and settles its sink. */
    method Stop(longEnough: bool, finalized: bool) returns (ended: Option<nat>)
      requires Inv(Now())
      modifies this
      ensures Inv(Now()) && active.None? && ended == old(active)
      ensures ended.None? ==> Now() == old(Now())
      ensures ended.Some? ==>
        && ended.value in old(sessions) && In(ended.value, Over)
        && (sessions[ended.value].completed == 1 <==> longEnough && finalized && old(sessions)[ended.value].bytes > 0)
    {
      ended := active;
      if ended.None? { return; }
      assert Owners(Now(), ended.value);
      TakeActive(Completing);
      var completed := Finish(ended.value, longEnough, finalized);
    }

    /** A loss is remembered while a session opens; otherwise it ends the active session, discarding it. */
    method OnAudioFocusLoss()
      requires Inv(Now())
      modifies this
      ensures Inv(Now())
      ensures old(opening).Some? ==> Now() == old(Now()).(lost := true)
      ensures old(opening).None? ==> active.None? && opening.None?
      ensures old(opening).None? && old(active).None? ==> Now() == old(Now())
      ensures old(opening).None? && old(active).Some? ==>
        In(old(active).value, Over) && sessions[old(active).value].discarded == 1 && shown == Result(old(active).value)
    {
      StepKeepsInv(Now(), FocusLoss);
      if opening.Some? {
        focusLostWhileOpening := true;
        return;
      }
      var taken := active;
      if taken.Some? {
        assert Owners(Now(), taken.value);
        TakeActive(Discarding);
        var completed := Finish(taken.value, false, false);
      }
    }

    /** Cancelling ends the active session and discards what it holds. */
    method Cancel()
      requires Inv(Now())
      modifies this
      ensures Inv(Now()) && active.None? && opening == old(opening)
      ensures old(active).None? ==> Now() == old(Now())
      ensures old(active).Some? ==> In(old(active).value, Over) && sessions[old(active).value].discarded == 1
    {
      var taken := active;
      if taken.Some? {
        assert Owners(Now(), taken.value);
        TakeActive(Discarding);
        var completed := Finish(taken.value, false, false);
      }
    }

    // ---------------------------------------------------------------- starting a session

    method GiveUp(id: nat)
      requires Inv(Now()) && In(id, GivingUp)
      modifies this
      ensures Inv(Now()) && In(id, Over) && sessions[id].discarded == 1
      ensures active == old(active) && opening.None?
    {
      EndOpening(id);
      var done := Finish(id, false, false);
    }

    /** Asks in order for the focus and the microphone; whichever answer is no ends the session. */
    method Start(id: nat, a: Answers) returns (r: Outcome)
      requires Inv(Now()) && id !in sessions
      modifies this
      ensures Inv(Now()) && id in sessions
      ensures r == Recording <==>
        && old(active).None? && old(opening).None? && a.granted && !a.lossEarly
        && a.creation.Opened? && a.initialized && a.started && !a.lossLate
      ensures r == Recording ==> active == Some(id) && sessions[id].worker.Looping? && shown == RecordingNow(id)
      ensures r != Recording ==> In(id, Over) && sessions[id].discarded == 1 && active == old(active)
      ensures old(active).Some? || old(opening).Some? ==> r == Failed("voice_deja_en_cours") && opening == old(opening)
      ensures old(active).None? && old(opening).None? ==>
        && opening.None?
        && (!a.granted ==> r == Failed("voice_audio_focus_refuse"))
        && (a.granted && a.lossEarly ==> r == Failed("voice_audio_focus_perdu"))
        && (a.granted && !a.lossEarly ==>
              && (a.creation.Forbidden? ==> r == Failed("voice_audio_record_permission_refusee"))
              && (a.creation.Unavailable? ==> r == Failed("voice_audio_record_indisponible"))
              && (a.creation.Opened? && !a.initialized ==> r == Failed("voice_audio_record_invalide"))
              && (a.creation.Opened? && a.initialized && !a.started ==> r == Failed("voice_audio_record_demarrage_echoue"))
              && (a.creation.Opened? && a.initialized && a.started && a.lossLate ==> r == Failed("voice_audio_focus_perdu")))
    {
      var free := BeginOpening(id);
      if !free {
        var done := Finish(id, false, false);
        return Failed("voice_deja_en_cours");
      }
      RequestFocus(id, a.granted);
      if !a.granted {
        GiveUp(id);
        return Failed("voice_audio_focus_refuse");
      }
      r := CheckFocus(id, a);
    }

    method CheckFocus(id: nat, a: Answers) returns (r: Outcome)
      requires Inv(Now()) && In(id, Checking) && opening == Some(id) && active.None? && !focusLostWhileOpening
      modifies this
      ensures Inv(Now()) && id in sessions && opening.None?
      ensures r == Recording <==> !a.lossEarly && a.creation.Opened? && a.initialized && a.started && !a.lossLate
      ensures r == Recording ==> active == Some(id) && sessions[id].worker.Looping? && shown == RecordingNow(id)
      ensures r != Recording ==> In(id, Over) && sessions[id].discarded == 1 && active.None?
      ensures a.lossEarly ==> r == Failed("voice_audio_focus_perdu")
      ensures !a.lossEarly && r.Failed? ==> r.reason == FailureAfterCheck(a)
    {
      if a.lossEarly { OnAudioFocusLoss(); }
      StepKeepsInv(Now(), CheckLost(id));
      sessions := sessions[id := sessions[id].(phase := if focusLostWhileOpening then GivingUp else Creating)];
      if focusLostWhileOpening {
        GiveUp(id);
        return Failed("voice_audio_focus_perdu");
      }
      r := OpenRecorder(id, a);
    }

    method OpenRecorder(id: nat, a: Answers) returns (r: Outcome)
      requires Inv(Now()) && In(id, Creating) && !focusLostWhileOpening && opening == Some(id) && active.None?
      modifies this
      ensures Inv(Now()) && id in sessions && opening.None?
      ensures r == Recording <==> a.creation.Opened? && a.initialized && a.started && !a.lossLate
      ensures r == Recording ==> active == Some(id) && sessions[id].worker.Looping? && shown == RecordingNow(id)
      ensures r != Recording ==> In(id, Over) && sessions[id].discarded == 1 && active.None?
      ensures r.Failed? ==> r.reason == FailureAfterCheck(a)
    {
      var created := a.creation.Opened?;
      StepKeepsInv(Now(), Create(id, created));
      var t := sessions[id];
      sessions := sessions[id := if created then t.(created := t.created + 1, phase := Starting) else t.(phase := GivingUp)];
      if !created {
        GiveUp(id);
        return Failed(FailureAfterCheck(a));
      }
      var started := a.initialized && a.started;
      StepKeepsInv(Now(), StartRecording(id, started));
      sessions := sessions[id := sessions[id].(phase := if started then Activating else GivingUp)];
      if !started {
        GiveUp(id);
        return Failed(FailureAfterCheck(a));
      }
      r := TryActivate(id, a);
    }

    /** A loss that came after the check still keeps the session from becoming active. */
    method TryActivate(id: nat, a: Answers) returns (r: Outcome)
      requires Inv(Now()) && In(id, Activating) && !focusLostWhileOpening && opening == Some(id) && active.None?
      modifies this
      ensures Inv(Now()) && id in sessions && opening.None?
      ensures r == if a.lossLate then Failed("voice_audio_focus_perdu") else Recording
      ensures r == Recording ==> active == Some(id) && sessions[id].worker.Looping? && shown == RecordingNow(id)
      ensures r != Recording ==> In(id, Over) && sessions[id].discarded == 1 && active.None?
    {
      if a.lossLate { OnAudioFocusLoss(); }
      var ok := ActivateSession(id);
      if !ok {
        var completed := Finish(id, false, false);
        return Failed("voice_audio_focus_perdu");
      }
      AnnounceRecording(id);
      return Recording;
    }

    method AnnounceRecording(id: nat)
      requires Inv(Now()) && id in sessions && sessions[id].announcing
      modifies this`sessions, this`shown
      ensures Inv(Now()) && Now() == Step(old(Now()), Announce(id))
    {
      StepKeepsInv(Now(), Announce(id));
      sessions := sessions[id := sessions[id].(announcing := false, worker := Looping)];
      shown := RecordingNow(id);
    }

    // ---------------------------------------------------------------- the worker

    /** The worker takes its own session and settles it: completed at a limit, discarded on a failure. */
    method WorkerStops(id: nat, longEnough: bool, finalized: bool)
      requires Inv(Now()) && id in sessions && sessions[id].worker.Taking? && active == Some(id)
      modifies this
      ensures Inv(Now()) && active.None? && In(id, Over) && shown == Result(id)
      ensures sessions[id].completed == 1 <==>
        old(sessions)[id].worker.ending.Completing? && longEnough && finalized && old(sessions)[id].bytes > 0
    {
      StepKeepsInv(Now(), WorkerTake(id));
      var ending := sessions[id].worker.ending;
      sessions := sessions[id := sessions[id].(worker := Stopped)];
      sessions := sessions[id := sessions[id].(phase := Releasing(ending))];
      active := None;
      var completed := Finish(id, longEnough, finalized);
    }

    method Check(id: nat, limit: bool)
      requires Inv(Now()) && id in sessions && sessions[id].worker.Looping?
      modifies this`sessions
      ensures Inv(Now()) && Now() == Step(old(Now()), WorkerCheck(id, limit))
    {
      StepKeepsInv(Now(), WorkerCheck(id, limit));
      var t := sessions[id];
      sessions := sessions[id := t.(worker := if active != Some(id) then Stopped
                                              else if limit || t.bytes >= MAX_BYTES then Taking(Completing) else Reading)];
    }

    method Append(id: nat, written: bool, limit: bool)
      requires Inv(Now()) && id in sessions && sessions[id].worker.Got? && active == Some(id)
      modifies this`sessions
      ensures Inv(Now()) && Now() == Step(old(Now()), WorkerAppend(id, written, limit))
    {
      StepKeepsInv(Now(), WorkerAppend(id, written, limit));
      var t := sessions[id];
      if !written {
        sessions := sessions[id := t.(worker := Taking(Discarding))];
      } else {
        var bytes := t.bytes + t.worker.n;
        sessions := sessions[id := t.(bytes := bytes, worker := if limit || bytes >= MAX_BYTES then Taking(Completing) else Looping)];
      }
    }

    /**
     * One turn of the worker: it goes on exactly when its session is live, fed and below its limits. If
     * it stops while live, its session is over: at a limit with what it holds, otherwise discarded.
     */
    method CaptureInto(id: nat, limit: bool, n: int, written: bool, limitAfter: bool, longEnough: bool, finalized: bool)
      returns (again: bool)
      requires Inv(Now()) && id in sessions && sessions[id].worker.Looping?
      requires n <= Min(CHUNK_BYTES, MAX_BYTES - sessions[id].bytes)
      modifies this
      ensures Inv(Now()) && id in sessions
      ensures again <==> old(active) == Some(id) && !limit && old(sessions)[id].bytes < MAX_BYTES && n > 0 && written
                         && !limitAfter && old(sessions)[id].bytes + n < MAX_BYTES
      ensures again ==> active == Some(id) && sessions[id].worker.Looping? && sessions[id].bytes == old(sessions)[id].bytes + n
      ensures !again && old(active) == Some(id) ==> active.None? && In(id, Over)
      ensures !again && old(active) == Some(id) && !limit && old(sessions)[id].bytes < MAX_BYTES && (n <= 0 || !written) ==>
        sessions[id].discarded == 1
      ensures !again && old(active) == Some(id) && (limit || old(sessions)[id].bytes == MAX_BYTES || (n > 0 && written)) ==>
        (sessions[id].completed == 1 <==>
           longEnough && finalized && (old(sessions)[id].bytes > 0 || (!limit && old(sessions)[id].bytes < MAX_BYTES)))
      ensures old(active) != Some(id) ==> active == old(active) && sessions[id].bytes == old(sessions)[id].bytes
    {
      assert Sound(sessions[id]);
      Check(id, limit);
      if active != Some(id) { return false; }
      if sessions[id].worker.Taking? {
        WorkerStops(id, longEnough, finalized);
        return false;
      }
      again := ReadAndAppend(id, n, written, limitAfter, longEnough, finalized);
    }

    method ReadAndAppend(id: nat, n: int, written: bool, limit: bool, longEnough: bool, finalized: bool) returns (again: bool)
      requires Inv(Now()) && id in sessions && sessions[id].worker.Reading? && active == Some(id)
      requires n <= Min(CHUNK_BYTES, MAX_BYTES - sessions[id].bytes)
      modifies this
      ensures Inv(Now()) && id in sessions
      ensures again <==> n > 0 && written && !limit && old(sessions)[id].bytes + n < MAX_BYTES
      ensures again ==> active == Some(id) && sessions[id].worker.Looping? && sessions[id].bytes == old(sessions)[id].bytes + n
      ensures !again ==> active.None? && In(id, Over)
      ensures n <= 0 || !written ==> sessions[id].discarded == 1
      ensures !again && n > 0 && written ==> (sessions[id].completed == 1 <==> longEnough && finalized)
    {
      StepKeepsInv(Now(), WorkerRead(id, n));
      sessions := sessions[id := sessions[id].(worker := if n > 0 then Got(n) else Taking(Discarding))];
      if n > 0 { Append(id, written, limit); }
      again := sessions[id].worker.Looping?;
      if !again {
        WorkerStops(id, longEnough, finalized);
        assert Sound(sessions[id]);
      }
    }
  }
}
