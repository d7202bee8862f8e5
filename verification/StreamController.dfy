/**
 * The controller that opens a transient stream for each response that has started and closes it when
 * the response ends. The session lookup answers later, so what it may open is checked again then.
 */
module StreamController {
  import opened Basics
  import opened ResponseStream

  datatype Target = Target(ownerId: string, deviceId: string)

  class FirebaseResponseStreamController {
    const deviceId: string
    const stream: FirebaseResponseStream
    var activeResponses: map<string, string>

    /** No listener outlives its response. */
    ghost predicate Valid()
      reads this, stream
    {
      && Inv(stream.Now())
      && forall r :: r in stream.subscriptions ==> r in activeResponses
    }

    constructor (deviceId: string, stream: FirebaseResponseStream)
      requires Inv(stream.Now()) && stream.subscriptions == map[]
      ensures Valid() && this.stream == stream && this.deviceId == deviceId && activeResponses == map[]
    {
      this.deviceId, this.stream, activeResponses := deviceId, stream, map[];
    }

    method AcceptStarted(responseId: string, source: string)
      requires Valid()
      modifies this
      ensures Valid() && activeResponses == old(activeResponses)[responseId := source]
    {
      activeResponses := activeResponses[responseId := source];
    }

    /** The lookup has answered: a stream opens only for this device and for a response still active. */
    method SessionResolved(responseId: string, source: string, target: Option<Target>, afterSequence: int, a: nat,
                           opens: bool, errorFirst: bool)
      returns (watched: bool)
      requires Valid() && a !in stream.attempts
      modifies stream
      ensures Valid()
      ensures watched <==> && target.Some? && target.value.deviceId == deviceId
                           && responseId in activeResponses && activeResponses[responseId] == source
                           && IsIdentifier(target.value.ownerId) && IsUlid(responseId) && 0 <= afterSequence <= MAX_SEQUENCE
      ensures watched && opens && !errorFirst ==> IsActive(stream.Now(), a)
      ensures !watched ==> stream.Now() == old(stream.Now())
    {
      if target.None? || target.value.deviceId != deviceId
         || responseId !in activeResponses || activeResponses[responseId] != source {
        return false;
      }
      var r := stream.WatchFrames(target.value.ownerId, responseId, afterSequence, a, opens, errorFirst);
      watched := r.Ok? || r.error == "source";
    }

    /** The end of a response closes its stream; the end of an older attempt at it changes nothing. */
    method AcceptTerminal(responseId: string, source: string) returns (ended: bool)
      requires Valid()
      modifies this, stream
      ensures Valid()
      ensures ended <==> responseId in old(activeResponses) && old(activeResponses)[responseId] == source
      ensures ended ==> responseId !in activeResponses && responseId !in stream.subscriptions
      ensures ended ==> stream.Now() == Stopped(old(stream.Now()), responseId)
      ensures !ended ==> activeResponses == old(activeResponses) && stream.Now() == old(stream.Now())
    {
      ended := responseId in activeResponses && activeResponses[responseId] == source;
      if !ended { return; }
      activeResponses := activeResponses - {responseId};
      stream.StopResponse(responseId);
    }

    method StopAll()
      requires Valid()
      modifies this, stream
      ensures Valid() && activeResponses == map[] && stream.subscriptions == map[]
      ensures stream.attempts == Swept(old(stream.Now()), {})
    {
      activeResponses := map[];
      stream.StopAll();
    }
  }
}
