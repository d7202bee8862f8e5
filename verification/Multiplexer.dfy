/**
 * Three bounded queues in front of a set of endpoints with failover. What an endpoint answers is an
 * input; the order in which endpoints are tried is a library sort, given by what it returns.
 */
module Multiplexer {
  import opened Basics
  import MonotonicUlid

  datatype QueueKind = Control | Message | Media

  /** One value for each kind of queue. */
  datatype Per<T> = Per(control: T, message: T, media: T) {
    function At(k: QueueKind): T { match k case Control => control case Message => message case Media => media }

    function With(k: QueueKind, v: T): Per<T> {
      match k case Control => this.(control := v) case Message => this.(message := v) case Media => this.(media := v)
    }
  }

  datatype Queued = Queued(id: string, canceled: bool)

  datatype Fate = Delivered | DroppedCanceled | DroppedFailed

  datatype Departure = Departure(id: string, fate: Fate)

  /** `rank`: USB before LAN before the cloud. */
  datatype Endpoint = Endpoint(id: string, rank: nat, healthy: bool)

  datatype Answer = Throws | Receipt(envelopeId: string, accepted: bool)

  /** `accepted` and `left`: for each queue, the envelopes it ever took in and let go, in order. */
  datatype State = State(
    capacities: Per<nat>, queues: Per<seq<Queued>>, delivered: set<string>, deviceId: Option<string>,
    endpoints: map<string, Endpoint>, accepted: Per<seq<string>>, left: Per<seq<Departure>>, receipts: seq<string>)

  predicate IsIdentifier(s: string) {
    1 <= |s| <= 160 && forall c :: c in s ==>
      'A' <= c <= 'Z' || 'a' <= c <= 'z' || '0' <= c <= '9' || c in {'.', '_', ':', '-'}
  }

  function Ids(q: seq<Queued>): seq<string> { seq(|q|, i requires 0 <= i < |q| => q[i].id) }

  function Names(d: seq<Departure>): seq<string> { seq(|d|, i requires 0 <= i < |d| => d[i].id) }

  // ---------------------------------------------------------------- the operations

  function Connect(s: State, endpoint: Endpoint, deviceId: string, verified: bool): Result<State> {
    if !verified then Err("transport_peer_untrusted")
    else if !IsIdentifier(deviceId) then Err("transport_device_id_invalid")
    else if s.deviceId.Some? && s.deviceId.value != deviceId then Err("transport_peer_identity_conflict")
    else if !IsIdentifier(endpoint.id) then Err("transport_endpoint_invalid")
    else Ok(s.(deviceId := Some(deviceId), endpoints := s.endpoints[endpoint.id := endpoint.(healthy := true)]))
  }

  predicate Waiting(s: State, id: string) { exists k :: id in Ids(s.queues.At(k)) }

  function Accept(s: State, k: QueueKind, id: string): State {
    s.(queues := s.queues.With(k, s.queues.At(k) + [Queued(id, false)]),
       accepted := s.accepted.With(k, s.accepted.At(k) + [id]))
  }

  function Enqueue(s: State, k: QueueKind, id: string): (State, Result<bool>) {
    if !IsIdentifier(id) then (s, Err("transport_envelope_id_invalid"))
    else if id in s.delivered || Waiting(s, id) then (s, Ok(false))
    else if |s.queues.At(k)| >= s.capacities.At(k) then (s, Err("transport_backpressure"))
    else (Accept(s, k, id), Ok(true))
  }

  function Canceled(q: seq<Queued>, id: string): seq<Queued> {
    seq(|q|, i requires 0 <= i < |q| => if q[i].id == id then q[i].(canceled := true) else q[i])
  }

  function Cancel(s: State, id: string): (State, bool) {
    (s.(queues := Per(Canceled(s.queues.control, id), Canceled(s.queues.message, id), Canceled(s.queues.media, id))),
     Waiting(s, id))
  }

  /** The head of a queue leaves it. */
  function Leave(s: State, k: QueueKind, fate: Fate): State
    requires s.queues.At(k) != []
  {
    var q := s.queues.At(k);
    s.(queues := s.queues.With(k, q[1..]), left := s.left.With(k, s.left.At(k) + [Departure(q[0].id, fate)]))
  }

  const DRAIN_ORDER := [Control, Message, Media]

  /** Cancelled heads are dropped, one queue after the other, until a live head is found. */
  function Pick(s: State, kinds: seq<QueueKind>): (r: (State, Option<QueueKind>))
    ensures r.1.Some? ==> r.0.queues.At(r.1.value) != []
    decreases kinds
  {
    if kinds == [] then (s, None)
    else
      var q := s.queues.At(kinds[0]);
      if q == [] then Pick(s, kinds[1..])
      else if q[0].canceled then Pick(Leave(s, kinds[0], DroppedCanceled), kinds[1..])
      else (s, Some(kinds[0]))
  }

  predicate Good(answer: Answer, id: string) { answer == Receipt(id, true) }

  predicate TriedBefore(a: Endpoint, b: Endpoint) {
    a.rank < b.rank || (a.rank == b.rank && MonotonicUlid.LexLess(a.id, b.id))
  }

  /** `order` lists the healthy endpoints, in the order in which they are tried. */
  ghost predicate IsOrder(endpoints: map<string, Endpoint>, order: seq<string>) {
    && (forall id :: id in order <==> id in endpoints && endpoints[id].healthy)
    && (forall i, j :: 0 <= i < j < |order| ==> order[i] != order[j])
    && (forall i, j {:trigger TriedBefore(endpoints[order[i]], endpoints[order[j]])} ::
          0 <= i < j < |order| && order[i] in endpoints && order[j] in endpoints ==>
          TriedBefore(endpoints[order[i]], endpoints[order[j]]))
  }

  /** How many endpoints fail before one accepts, or all of them. */
  function Failures(order: seq<string>, answers: string -> Answer, id: string): (n: nat)
    ensures n <= |order|
    ensures forall i :: 0 <= i < n ==> !Good(answers(order[i]), id)
    ensures n < |order| ==> Good(answers(order[n]), id)
  {
    if order == [] || Good(answers(order[0]), id) then 0 else 1 + Failures(order[1..], answers, id)
  }

  function Unhealthy(endpoints: map<string, Endpoint>, failed: seq<string>): map<string, Endpoint> {
    map e | e in endpoints :: if e in failed then endpoints[e].(healthy := false) else endpoints[e]
  }

  function Drain(s: State, order: seq<string>, answers: string -> Answer): (State, Result<string>) {
    var (picked, kind) := Pick(s, DRAIN_ORDER);
    if kind.None? then (picked, Err("transport_queue_empty"))
    else if order == [] then (Leave(picked, kind.value, DroppedFailed), Err("transport_unavailable"))
    else
      var id := picked.queues.At(kind.value)[0].id;
      var n := Failures(order, answers, id);
      var tried := picked.(endpoints := Unhealthy(s.endpoints, order[..n]));
      if n < |order| then
        (Leave(tried, kind.value, Delivered).(delivered := s.delivered + {id}, receipts := s.receipts + [id]), Ok(id))
      else (Leave(tried, kind.value, DroppedFailed), Err("transport_delivery_failed"))
  }

  // ---------------------------------------------------------------- the multiplexer

  class TransportMultiplexer {
    const capacities: Per<nat>
    var endpoints: map<string, Endpoint>
    var queues: Per<seq<Queued>>
    var delivered: set<string>
    var deviceId: Option<string>
    ghost var accepted: Per<seq<string>>
    ghost var left: Per<seq<Departure>>
    ghost var receipts: seq<string>

    ghost function Now(): State
      reads this
    {
      State(capacities, queues, delivered, deviceId, endpoints, accepted, left, receipts)
    }

    constructor (capacities: Per<nat>)
      requires forall k :: capacities.At(k) > 0
      ensures Now() == Start(capacities)
    {
      this.capacities := capacities;
      endpoints, queues, delivered, deviceId := map[], Per([], [], []), {}, None;
      accepted, left, receipts := Per([], [], []), Per([], [], []), [];
    }

    method ConnectEndpoint(endpoint: Endpoint, signedDeviceId: string, verified: bool) returns (error: Option<string>)
      modifies this`endpoints, this`deviceId
      ensures match Connect(old(Now()), endpoint, signedDeviceId, verified)
              case Ok(s) => error == None && Now() == s
              case Err(e) => error == Some(e) && Now() == old(Now())
    {
      if !verified { return Some("transport_peer_untrusted"); }
      if !IsIdentifier(signedDeviceId) { return Some("transport_device_id_invalid"); }
      if deviceId.Some? && deviceId.value != signedDeviceId { return Some("transport_peer_identity_conflict"); }
      if !IsIdentifier(endpoint.id) { return Some("transport_endpoint_invalid"); }
      deviceId := Some(signedDeviceId);
      endpoints := endpoints[endpoint.id := endpoint.(healthy := true)];
      return None;
    }

    method IsQueued(id: string) returns (found: bool)
      ensures found <==> Waiting(Now(), id)
    {
      found := id in Ids(queues.control) || id in Ids(queues.message) || id in Ids(queues.media);
      assert queues.At(Control) == queues.control && queues.At(Message) == queues.message && queues.At(Media) == queues.media;
      if Waiting(Now(), id) {
        ghost var k :| id in Ids(queues.At(k));
        assert k == Control || k == Message || k == Media;
      }
    }

    method EnqueueEnvelope(k: QueueKind, id: string) returns (r: Result<bool>)
      modifies this`queues, this`accepted
      ensures (Now(), r) == Enqueue(old(Now()), k, id)
    {
      if !IsIdentifier(id) { return Err("transport_envelope_id_invalid"); }
      var queued := IsQueued(id);
      if id in delivered || queued { return Ok(false); }
      if |queues.At(k)| >= capacities.At(k) { return Err("transport_backpressure"); }
      queues := queues.With(k, queues.At(k) + [Queued(id, false)]);
      accepted := accepted.With(k, accepted.At(k) + [id]);
      return Ok(true);
    }

    /** The first item found with that identifier is marked. */
    method CancelEnvelope(id: string) returns (found: bool)
      requires Distinct(Now())
      modifies this`queues
      ensures (Now(), found) == Cancel(old(Now()), id)
    {
      ghost var was := Now();
      found := IsQueued(id);
      MissingStays(queues.control, id);
      MissingStays(queues.message, id);
      MissingStays(queues.media, id);
      if id in Ids(queues.control) {
        OnlyOneQueue(was, Control, Message, id);
        OnlyOneQueue(was, Control, Media, id);
        var q := Mark(Control, id);
        queues := queues.(control := q);
      } else if id in Ids(queues.message) {
        OnlyOneQueue(was, Message, Media, id);
        var q := Mark(Message, id);
        queues := queues.(message := q);
      } else if id in Ids(queues.media) {
        var q := Mark(Media, id);
        queues := queues.(media := q);
      }
    }

    method Mark(k: QueueKind, id: string) returns (q: seq<Queued>)
      requires Distinct(Now()) && id in Ids(queues.At(k))
      ensures q == Canceled(queues.At(k), id)
    {
      var items := queues.At(k);
      ghost var target :| 0 <= target < |items| && Ids(items)[target] == id;
      var i := 0;
      while items[i].id != id
        invariant 0 <= i <= target
        decreases target - i
      {
        i := i + 1;
      }
      q := items[i := items[i].(canceled := true)];
      forall j | 0 <= j < |items| && j != i ensures items[j].id != id {
        assert Place(Now(), k, i, k, j);
      }
    }

    method RemoveHead(k: QueueKind, ghost fate: Fate)
      requires queues.At(k) != []
      modifies this`queues, this`left
      ensures Now() == Leave(old(Now()), k, fate)
    {
      left := left.With(k, left.At(k) + [Departure(queues.At(k)[0].id, fate)]);
      queues := queues.With(k, queues.At(k)[1..]);
    }

    /** Drops cancelled heads on the way; the head it returns is still in its queue. */
    method PickHead() returns (kind: Option<QueueKind>)
      modifies this`queues, this`left
      ensures (Now(), kind) == Pick(old(Now()), DRAIN_ORDER)
    {
      kind := None;
      ghost var was := Now();
      var i := 0;
      while i < 3
        invariant 0 <= i <= 3
        invariant Pick(was, DRAIN_ORDER) == Pick(Now(), DRAIN_ORDER[i..])
      {
        var k := DRAIN_ORDER[i];
        assert DRAIN_ORDER[i..][1..] == DRAIN_ORDER[i + 1..] && DRAIN_ORDER[i..][0] == k;
        if queues.At(k) != [] {
          if !queues.At(k)[0].canceled { return Some(k); }
          RemoveHead(k, DroppedCanceled);
        }
        i := i + 1;
      }
    }

    /** Tries the endpoints in order; each failure marks its endpoint, the first good receipt ends it. */
    method DrainOne(order: seq<string>, answers: string -> Answer) returns (r: Result<string>)
      requires IsOrder(endpoints, order)
      modifies this
      ensures (Now(), r) == Drain(old(Now()), order, answers)
    {
      ghost var was := Now();
      var kind := PickHead();
      if kind.None? { return Err("transport_queue_empty"); }
      PickKeepsEndpoints(was, DRAIN_ORDER);
      var id := queues.At(kind.value)[0].id;
      if order == [] {
        RemoveHead(kind.value, DroppedFailed);
        return Err("transport_unavailable");
      }
      var sent := Try(order, answers, id);
      if sent {
        RemoveHead(kind.value, Delivered);
        delivered := delivered + {id};
        receipts := receipts + [id];
        return Ok(id);
      }
      RemoveHead(kind.value, DroppedFailed);
      return Err("transport_delivery_failed");
    }

    method Try(order: seq<string>, answers: string -> Answer, id: string) returns (sent: bool)
      requires forall e :: e in order ==> e in endpoints
      modifies this`endpoints
      ensures sent <==> Failures(order, answers, id) < |order|
      ensures endpoints == Unhealthy(old(endpoints), order[..Failures(order, answers, id)])
    {
      ghost var was := endpoints;
      assert Unhealthy(was, order[..0]) == was;
      var i := 0;
      while i < |order|
        invariant 0 <= i <= |order|
        invariant forall j :: 0 <= j < i ==> !Good(answers(order[j]), id)
        invariant endpoints == Unhealthy(was, order[..i])
      {
        var candidate := order[i];
        assert candidate in order;
        if Good(answers(candidate), id) {
          FirstGood(order, answers, id, i);
          return true;
        }
        assert order[..i + 1] == order[..i] + [candidate];
        endpoints := endpoints[candidate := endpoints[candidate].(healthy := false)];
        i := i + 1;
      }
      return false;
    }
  }

  function Start(capacities: Per<nat>): State {
    State(capacities, Per([], [], []), {}, None, map[], Per([], [], []), Per([], [], []), [])
  }

  lemma FirstGood(order: seq<string>, answers: string -> Answer, id: string, i: nat)
    requires i < |order| && Good(answers(order[i]), id)
    requires forall j :: 0 <= j < i ==> !Good(answers(order[j]), id)
    ensures Failures(order, answers, id) == i
  {
  }

  lemma {:induction false} PickKeepsEndpoints(s: State, kinds: seq<QueueKind>)
    ensures var p := Pick(s, kinds).0;
            p == s.(queues := p.queues, left := p.left)
    decreases kinds
  {
    if kinds != [] {
      var q := s.queues.At(kinds[0]);
      if q == [] { PickKeepsEndpoints(s, kinds[1..]); }
      else if q[0].canceled { PickKeepsEndpoints(Leave(s, kinds[0], DroppedCanceled), kinds[1..]); }
    }
  }

  lemma MissingStays(q: seq<Queued>, id: string)
    ensures id !in Ids(q) ==> Canceled(q, id) == q
  {
    if id !in Ids(q) {
      forall i | 0 <= i < |q| ensures q[i].id != id { assert Ids(q)[i] == q[i].id; }
    }
  }

  lemma OnlyOneQueue(s: State, k: QueueKind, l: QueueKind, id: string)
    requires Distinct(s) && k != l && id in Ids(s.queues.At(k))
    ensures id !in Ids(s.queues.At(l))
  {
    var i :| 0 <= i < |Ids(s.queues.At(k))| && Ids(s.queues.At(k))[i] == id;
    forall j | 0 <= j < |Ids(s.queues.At(l))| ensures Ids(s.queues.At(l))[j] != id {
      assert Place(s, k, i, l, j);
    }
  }

  // ---------------------------------------------------------------- what every run keeps

  /** Two different places in the queues hold different envelopes. */
  ghost predicate Place(s: State, k: QueueKind, i: nat, l: QueueKind, j: nat) {
    i < |s.queues.At(k)| && j < |s.queues.At(l)| && (k != l || i != j) ==> s.queues.At(k)[i].id != s.queues.At(l)[j].id
  }

  ghost predicate Distinct(s: State) { forall k, i: nat, l, j: nat :: Place(s, k, i, l, j) }

  /** One queue: within capacity, nothing delivered in it, and everything accepted has left or is there, in order. */
  ghost predicate QueueInv(s: State, k: QueueKind) {
    && |s.queues.At(k)| <= s.capacities.At(k)
    && (forall i :: 0 <= i < |s.queues.At(k)| ==> s.queues.At(k)[i].id !in s.delivered)
    && s.accepted.At(k) == Names(s.left.At(k)) + Ids(s.queues.At(k))
    && (forall i :: 0 <= i < |s.left.At(k)| && s.left.At(k)[i].fate.Delivered? ==> s.left.At(k)[i].id in s.delivered)
  }

  ghost predicate Inv(s: State) {
    && Distinct(s)
    && (forall k :: QueueInv(s, k))
    && (forall i, j :: 0 <= i < j < |s.receipts| ==> s.receipts[i] != s.receipts[j])
    && (forall id :: id in s.receipts <==> id in s.delivered)
  }

  lemma LeaveKeeps(s: State, k: QueueKind, fate: Fate)
    requires Inv(s) && s.queues.At(k) != [] && !fate.Delivered?
    ensures Inv(Leave(s, k, fate))
    ensures forall l, i :: 0 <= i < |Leave(s, k, fate).queues.At(l)| ==>
      Leave(s, k, fate).queues.At(l)[i].id != s.queues.At(k)[0].id
  {
    var t := Leave(s, k, fate);
    DepartureKeepsOrder(s, k, fate);
    forall a, i: nat, b, j: nat ensures Place(t, a, i, b, j) {
      assert Place(s, a, if a == k then i + 1 else i, b, if b == k then j + 1 else j);
    }
    forall l ensures QueueInv(t, l) { assert QueueInv(s, l); }
    forall l, i | 0 <= i < |t.queues.At(l)| ensures t.queues.At(l)[i].id != s.queues.At(k)[0].id {
      assert Place(s, l, if l == k then i + 1 else i, k, 0);
    }
  }

  lemma DepartureKeepsOrder(s: State, k: QueueKind, fate: Fate)
    requires QueueInv(s, k) && s.queues.At(k) != []
    ensures var t := Leave(s, k, fate); t.accepted.At(k) == Names(t.left.At(k)) + Ids(t.queues.At(k))
  {
    var t := Leave(s, k, fate);
    assert Names(t.left.At(k)) == Names(s.left.At(k)) + [s.queues.At(k)[0].id];
    assert Ids(s.queues.At(k)) == [s.queues.At(k)[0].id] + Ids(t.queues.At(k));
  }

  lemma {:induction false} PickKeeps(s: State, kinds: seq<QueueKind>)
    requires Inv(s)
    ensures Inv(Pick(s, kinds).0)
    decreases kinds
  {
    if kinds != [] {
      var q := s.queues.At(kinds[0]);
      if q == [] {
        PickKeeps(s, kinds[1..]);
      } else if q[0].canceled {
        LeaveKeeps(s, kinds[0], DroppedCanceled);
        PickKeeps(Leave(s, kinds[0], DroppedCanceled), kinds[1..]);
      }
    }
  }

  lemma DeliveryKeeps(s: State, k: QueueKind)
    requires Inv(s) && s.queues.At(k) != []
    ensures var id := s.queues.At(k)[0].id;
            id !in s.receipts
            && Inv(Leave(s, k, Delivered).(delivered := s.delivered + {id}, receipts := s.receipts + [id]))
  {
    var id := s.queues.At(k)[0].id;
    assert QueueInv(s, k);
    var dropped := Leave(s, k, DroppedFailed);
    LeaveKeeps(s, k, DroppedFailed);
    DepartureKeepsOrder(s, k, Delivered);
    var t := Leave(s, k, Delivered).(delivered := s.delivered + {id}, receipts := s.receipts + [id]);
    forall a, i: nat, b, j: nat ensures Place(t, a, i, b, j) { assert Place(dropped, a, i, b, j); }
    forall l ensures QueueInv(t, l) {
      assert QueueInv(s, l) && QueueInv(dropped, l);
      assert t.queues.At(l) == dropped.queues.At(l);
    }
  }

  lemma EndpointsDoNotMatter(s: State, endpoints: map<string, Endpoint>, deviceId: Option<string>)
    requires Inv(s)
    ensures Inv(s.(endpoints := endpoints, deviceId := deviceId))
  {
    var t := s.(endpoints := endpoints, deviceId := deviceId);
    forall a, i: nat, b, j: nat ensures Place(t, a, i, b, j) { assert Place(s, a, i, b, j); }
    forall l ensures QueueInv(t, l) { assert QueueInv(s, l); }
  }

  lemma DrainKeeps(s: State, order: seq<string>, answers: string -> Answer)
    requires Inv(s)
    ensures Inv(Drain(s, order, answers).0)
    ensures Drain(s, order, answers).1.Ok? ==> Drain(s, order, answers).1.value !in s.receipts
  {
    var (picked, kind) := Pick(s, DRAIN_ORDER);
    PickKeeps(s, DRAIN_ORDER);
    PickKeepsEndpoints(s, DRAIN_ORDER);
    if kind.Some? {
      var id := picked.queues.At(kind.value)[0].id;
      var n := Failures(order, answers, id);
      var tried := picked.(endpoints := Unhealthy(s.endpoints, order[..n]));
      EndpointsDoNotMatter(picked, tried.endpoints, tried.deviceId);
      LeaveKeeps(picked, kind.value, DroppedFailed);
      LeaveKeeps(tried, kind.value, DroppedFailed);
      DeliveryKeeps(tried, kind.value);
    }
  }

  lemma EnqueueKeeps(s: State, k: QueueKind, id: string)
    requires Inv(s)
    ensures Inv(Enqueue(s, k, id).0)
  {
    var t := Enqueue(s, k, id).0;
    if t != s {
      assert QueueInv(s, k);
      assert Ids(t.queues.At(k)) == Ids(s.queues.At(k)) + [id];
      forall l, i | 0 <= i < |s.queues.At(l)| ensures s.queues.At(l)[i].id != id {
        assert Ids(s.queues.At(l))[i] != id;
      }
      forall a, i: nat, b, j: nat ensures Place(t, a, i, b, j) { assert Place(s, a, i, b, j); }
      forall l ensures QueueInv(t, l) { assert QueueInv(s, l); }
    }
  }

  lemma CanceledIds(q: seq<Queued>, id: string)
    ensures Ids(Canceled(q, id)) == Ids(q)
  {
  }

  lemma CancelKeeps(s: State, id: string)
    requires Inv(s)
    ensures Inv(Cancel(s, id).0)
  {
    var t := Cancel(s, id).0;
    forall k ensures t.queues.At(k) == Canceled(s.queues.At(k), id) {
    }
    forall a, i: nat, b, j: nat ensures Place(t, a, i, b, j) { assert Place(s, a, i, b, j); }
    forall l ensures QueueInv(t, l) {
      assert QueueInv(s, l);
      CanceledIds(s.queues.At(l), id);
    }
  }

  datatype Op =
    | ConnectOp(endpoint: Endpoint, deviceId: string, verified: bool)
    | EnqueueOp(kind: QueueKind, id: string)
    | CancelOp(id: string)
    | DrainOp(order: seq<string>, answers: string -> Answer)

  function Step(s: State, op: Op): State {
    match op
    case ConnectOp(endpoint, deviceId, verified) =>
      var r := Connect(s, endpoint, deviceId, verified);
      if r.Ok? then r.value else s
    case EnqueueOp(kind, id) => Enqueue(s, kind, id).0
    case CancelOp(id) => Cancel(s, id).0
    case DrainOp(order, answers) => Drain(s, order, answers).0
  }

  function RunAll(s: State, ops: seq<Op>): State
    decreases ops
  {
    if ops == [] then s else RunAll(Step(s, ops[0]), ops[1..])
  }

  lemma StepKeeps(s: State, op: Op)
    requires Inv(s)
    ensures Inv(Step(s, op))
  {
    match op
    case ConnectOp(endpoint, deviceId, verified) =>
      EndpointsDoNotMatter(s, Step(s, op).endpoints, Step(s, op).deviceId);
    case EnqueueOp(kind, id) => EnqueueKeeps(s, kind, id);
    case CancelOp(id) => CancelKeeps(s, id);
    case DrainOp(order, answers) => DrainKeeps(s, order, answers);
  }

  lemma StartIsSound(capacities: Per<nat>)
    ensures Inv(Start(capacities))
  {
    var s := Start(capacities);
    forall k ensures s.queues.At(k) == [] && s.left.At(k) == [] && s.accepted.At(k) == [] {
    }
    forall k ensures QueueInv(s, k) {
      assert Names(s.left.At(k)) + Ids(s.queues.At(k)) == [];
    }
    forall a, i: nat, b, j: nat ensures Place(s, a, i, b, j) {
    }
  }

  /**
   * Every run: queued identifiers are distinct and not delivered, capacities hold, no identifier gets
   * two receipts, and what each queue accepted is, in the same order, what has left it (delivered,
   * cancelled or failed) followed by what is still in it.
   */
  lemma {:induction false} RunConserves(s: State, ops: seq<Op>)
    requires Inv(s)
    ensures Inv(RunAll(s, ops))
    decreases ops
  {
    if ops != [] {
      StepKeeps(s, ops[0]);
      RunConserves(Step(s, ops[0]), ops[1..]);
    }
  }

  // ---------------------------------------------------------------- which envelope a drain takes

  predicate Skipped(s: State, k: QueueKind) { s.queues.At(k) == [] || s.queues.At(k)[0].canceled }

  /** A queue is drained from exactly when its head is live and each queue before it has no live head. */
  lemma DrainsFrom(s: State, k: QueueKind)
    ensures Pick(s, DRAIN_ORDER).1 == Some(k) <==>
            !Skipped(s, k) && (k == Control || (Skipped(s, Control) && (k == Message || Skipped(s, Message))))
    ensures Pick(s, DRAIN_ORDER).1 == Some(k) ==> Pick(s, DRAIN_ORDER).0.queues.At(k) == s.queues.At(k)
  {
    assert DRAIN_ORDER[1..] == [Message, Media] && DRAIN_ORDER[1..][1..] == [Media] && DRAIN_ORDER[1..][1..][1..] == [];
  }

  /**
   * A drain delivers exactly when some healthy endpoint answers with a good receipt; the endpoints
   * tried before that one are no longer healthy, all others are as they were.
   */
  lemma DrainDeliversExactlyWhen(s: State, order: seq<string>, answers: string -> Answer, e: string)
    requires IsOrder(s.endpoints, order)
    ensures var (picked, kind) := Pick(s, DRAIN_ORDER);
            var (t, r) := Drain(s, order, answers);
            && (r.Ok? <==>
                  kind.Some? && exists i :: 0 <= i < |order| && Good(answers(order[i]), picked.queues.At(kind.value)[0].id))
            && (kind.Some? && e in s.endpoints ==>
                  && e in t.endpoints
                  && t.endpoints[e] == s.endpoints[e].(healthy :=
                       s.endpoints[e].healthy && e !in order[..Failures(order, answers, picked.queues.At(kind.value)[0].id)]))
  {
    PickKeepsEndpoints(s, DRAIN_ORDER);
    assert order[..0] == [];
    assert s.endpoints == Unhealthy(s.endpoints, []);
    var (picked, kind) := Pick(s, DRAIN_ORDER);
    if kind.Some? && e in s.endpoints {
      var n := Failures(order, answers, picked.queues.At(kind.value)[0].id);
      forall x | x in order[..n] ensures x in order {
      }
    }
  }

  // ---------------------------------------------------------------- a cancelled envelope is not delivered

  ghost predicate MarkedAt(s: State, k: QueueKind, i: nat, id: string) {
    i < |s.queues.At(k)| && s.queues.At(k)[i] == Queued(id, true)
  }

  ghost predicate Marked(s: State, id: string) { exists k, i: nat :: MarkedAt(s, k, i, id) }

  /** Cancelling marks the envelope exactly if it is queued. */
  lemma CancelMarks(s: State, id: string)
    ensures Cancel(s, id).1 <==> Waiting(s, id)
    ensures Waiting(s, id) ==> Marked(Cancel(s, id).0, id)
  {
    if Waiting(s, id) {
      var k :| id in Ids(s.queues.At(k));
      var i :| 0 <= i < |Ids(s.queues.At(k))| && Ids(s.queues.At(k))[i] == id;
      var t := Cancel(s, id).0;
      assert t.queues.At(k) == Canceled(s.queues.At(k), id);
      assert MarkedAt(t, k, i, id);
    }
  }

  /** No drain delivers an envelope that is marked, whatever stands before it. */
  lemma MarkedIsNotDelivered(s: State, order: seq<string>, answers: string -> Answer, id: string)
    requires Inv(s) && Marked(s, id)
    ensures Drain(s, order, answers).1 != Ok(id)
  {
    var k, i: nat :| MarkedAt(s, k, i, id);
    var (picked, kind) := Pick(s, DRAIN_ORDER);
    if kind.Some? {
      DrainsFrom(s, kind.value);
      assert Place(s, k, i, kind.value, 0);
    }
  }

  /** Wherever the envelope is queued it is cancelled, and it has not been delivered. */
  ghost predicate Doomed(s: State, id: string) {
    id !in s.delivered && forall k, i: nat :: CanceledAt(s, k, i, id)
  }

  predicate CanceledAt(s: State, k: QueueKind, i: nat, id: string) {
    i < |s.queues.At(k)| && s.queues.At(k)[i].id == id ==> s.queues.At(k)[i].canceled
  }

  lemma MarkedIsDoomed(s: State, id: string)
    requires Inv(s) && Marked(s, id)
    ensures Doomed(s, id)
  {
    var k, i: nat :| MarkedAt(s, k, i, id);
    assert QueueInv(s, k);
    forall l, j: nat ensures CanceledAt(s, l, j, id) {
      assert Place(s, k, i, l, j);
    }
  }

  lemma LeaveKeepsDoom(s: State, k: QueueKind, fate: Fate, id: string)
    requires Doomed(s, id) && s.queues.At(k) != []
    ensures Doomed(Leave(s, k, fate), id)
  {
    var t := Leave(s, k, fate);
    forall l, j: nat ensures CanceledAt(t, l, j, id) {
      assert CanceledAt(s, l, if l == k then j + 1 else j, id);
    }
  }

  lemma {:induction false} PickKeepsDoom(s: State, kinds: seq<QueueKind>, id: string)
    requires Doomed(s, id)
    ensures Doomed(Pick(s, kinds).0, id)
    ensures Pick(s, kinds).1.Some? ==> Pick(s, kinds).0.queues.At(Pick(s, kinds).1.value)[0].id != id
    decreases kinds
  {
    if kinds != [] {
      var q := s.queues.At(kinds[0]);
      if q == [] {
        PickKeepsDoom(s, kinds[1..], id);
      } else if q[0].canceled {
        LeaveKeepsDoom(s, kinds[0], DroppedCanceled, id);
        PickKeepsDoom(Leave(s, kinds[0], DroppedCanceled), kinds[1..], id);
      } else {
        assert CanceledAt(s, kinds[0], 0, id);
      }
    }
  }

  /** Doom does not look at the endpoints, nor at other envelopes' deliveries. */
  lemma DoomIgnores(s: State, t: State, id: string)
    requires Doomed(s, id) && t.queues == s.queues && id !in t.delivered
    ensures Doomed(t, id)
  {
    forall l, j: nat ensures CanceledAt(t, l, j, id) {
      assert CanceledAt(s, l, j, id);
    }
  }

  lemma DrainKeepsDoom(s: State, order: seq<string>, answers: string -> Answer, id: string)
    requires Doomed(s, id)
    ensures Doomed(Drain(s, order, answers).0, id)
  {
    var (picked, kind) := Pick(s, DRAIN_ORDER);
    PickKeepsDoom(s, DRAIN_ORDER, id);
    PickKeepsEndpoints(s, DRAIN_ORDER);
    if kind.Some? {
      LeaveKeepsDoom(picked, kind.value, DroppedFailed, id);
      DoomIgnores(Leave(picked, kind.value, DroppedFailed), Drain(s, order, answers).0, id);
    }
  }

  lemma StepKeepsDoom(s: State, op: Op, id: string)
    requires Doomed(s, id) && !(op.EnqueueOp? && op.id == id)
    ensures Doomed(Step(s, op), id)
  {
    var t := Step(s, op);
    match op
    case ConnectOp(_, _, _) => DoomIgnores(s, t, id);
    case DrainOp(order, answers) => DrainKeepsDoom(s, order, answers, id);
    case EnqueueOp(_, _) =>
      forall l, j: nat ensures CanceledAt(t, l, j, id) { assert CanceledAt(s, l, j, id); }
    case CancelOp(other) =>
      forall l, j: nat ensures CanceledAt(t, l, j, id) {
        assert CanceledAt(s, l, j, id);
        assert t.queues.At(l) == Canceled(s.queues.At(l), other);
      }
  }

  lemma {:induction false} DoomLasts(s: State, ops: seq<Op>, id: string)
    requires Doomed(s, id) && forall i :: 0 <= i < |ops| ==> !(ops[i].EnqueueOp? && ops[i].id == id)
    ensures Doomed(RunAll(s, ops), id)
    decreases ops
  {
    if ops != [] {
      StepKeepsDoom(s, ops[0], id);
      DoomLasts(Step(s, ops[0]), ops[1..], id);
    }
  }

  /** An envelope cancelled while queued is delivered in no continuation, unless it is handed in anew. */
  lemma CanceledIsNeverDelivered(s: State, ops: seq<Op>, id: string)
    requires Inv(s) && Cancel(s, id).1
    requires forall i :: 0 <= i < |ops| ==> !(ops[i].EnqueueOp? && ops[i].id == id)
    ensures id !in RunAll(Cancel(s, id).0, ops).delivered
  {
    CancelMarks(s, id);
    CancelKeeps(s, id);
    MarkedIsDoomed(Cancel(s, id).0, id);
    DoomLasts(Cancel(s, id).0, ops, id);
  }

  // ---------------------------------------------------------------- what each operation leaves
  ghost predicate QueuedAt(s: State, k: QueueKind, i: nat, id: string) {
    i < |s.queues.At(k)| && s.queues.At(k)[i].id == id
  }

  lemma WaitingExactlyWhen(s: State, id: string)
    ensures Waiting(s, id) <==> exists k, i: nat :: QueuedAt(s, k, i, id)
  {
    if Waiting(s, id) {
      var k :| id in Ids(s.queues.At(k));
      var i: nat :| i < |Ids(s.queues.At(k))| && Ids(s.queues.At(k))[i] == id;
      assert QueuedAt(s, k, i, id);
    }
    if k, i: nat :| QueuedAt(s, k, i, id) {
      assert Ids(s.queues.At(k))[i] == id;
    }
  }

  /**
   * An envelope is taken in exactly when its name is well formed, it is neither delivered nor queued
   * anywhere, and its queue has room: it is then last in that queue. Nothing else ever changes.
   */
  lemma EnqueueOutcome(s: State, k: QueueKind, id: string)
    ensures var (t, r) := Enqueue(s, k, id);
            var known := id in s.delivered || exists l, i: nat :: QueuedAt(s, l, i, id);
            && (r == Ok(true) <==> IsIdentifier(id) && !known && |s.queues.At(k)| < s.capacities.At(k))
            && (r == Ok(false) <==> IsIdentifier(id) && known)
            && (r != Ok(true) ==> t == s)
            && (r == Ok(true) ==>
                  && t == s.(queues := t.queues, accepted := t.accepted)
                  && forall l :: t.queues.At(l) == if l == k then s.queues.At(k) + [Queued(id, false)] else s.queues.At(l))
  {
    WaitingExactlyWhen(s, id);
  }

  /** Cancelling marks every queued item of that name, and no other; nothing moves. */
  lemma CancelOutcome(s: State, id: string, k: QueueKind)
    ensures var (t, found) := Cancel(s, id);
            && (found <==> exists l, i: nat :: QueuedAt(s, l, i, id))
            && t == s.(queues := t.queues) && |t.queues.At(k)| == |s.queues.At(k)|
            && forall i :: 0 <= i < |s.queues.At(k)| ==>
                 t.queues.At(k)[i] == Queued(s.queues.At(k)[i].id, s.queues.At(k)[i].canceled || s.queues.At(k)[i].id == id)
  {
    WaitingExactlyWhen(s, id);
    assert Cancel(s, id).0.queues.At(k) == Canceled(s.queues.At(k), id);
  }

  /** A drain comes to this queue: no queue before it has a live head. */
  predicate Reached(s: State, k: QueueKind) {
    match k
    case Control => true
    case Message => Skipped(s, Control)
    case Media => Skipped(s, Control) && Skipped(s, Message)
  }

  predicate Loses(s: State, k: QueueKind) { Reached(s, k) && s.queues.At(k) != [] }

  predicate Takes(s: State, k: QueueKind) { Reached(s, k) && !Skipped(s, k) }

  /** What picking does to the queue of the i-th kind, when kinds are looked at in order. */
  ghost predicate PickedAt(s: State, kinds: seq<QueueKind>, i: nat, t: State, kind: Option<QueueKind>)
    requires i < |kinds|
  {
    var k, reached := kinds[i], forall j :: 0 <= j < i ==> Skipped(s, kinds[j]);
    var q := s.queues.At(k);
    && (kind == Some(k) <==> reached && !Skipped(s, k))
    && t.queues.At(k) == (if reached && q != [] && q[0].canceled then q[1..] else q)
    && t.left.At(k) == if reached && q != [] && q[0].canceled
                       then s.left.At(k) + [Departure(q[0].id, DroppedCanceled)] else s.left.At(k)
  }

  lemma LeaveTouchesOne(s: State, k: QueueKind, fate: Fate, l: QueueKind)
    requires s.queues.At(k) != []
    ensures var t := Leave(s, k, fate);
            if l == k
            then t.queues.At(l) == s.queues.At(k)[1..] && t.left.At(l) == s.left.At(k) + [Departure(s.queues.At(k)[0].id, fate)]
            else t.queues.At(l) == s.queues.At(l) && t.left.At(l) == s.left.At(l)
  {
  }

  lemma {:induction false} PickIgnores(s: State, kinds: seq<QueueKind>, k: QueueKind)
    requires k !in kinds
    ensures var (t, kind) := Pick(s, kinds);
            kind != Some(k) && t.queues.At(k) == s.queues.At(k) && t.left.At(k) == s.left.At(k)
    decreases kinds
  {
    if kinds != [] {
      var q := s.queues.At(kinds[0]);
      if q == [] {
        PickIgnores(s, kinds[1..], k);
      } else if q[0].canceled {
        LeaveTouchesOne(s, kinds[0], DroppedCanceled, k);
        PickIgnores(Leave(s, kinds[0], DroppedCanceled), kinds[1..], k);
      }
    }
  }

  ghost predicate NoKindTwice(kinds: seq<QueueKind>) { forall i, j :: 0 <= i < j < |kinds| ==> kinds[i] != kinds[j] }

  lemma {:induction false} PicksAt(s: State, kinds: seq<QueueKind>, i: nat)
    requires i < |kinds| && NoKindTwice(kinds)
    ensures PickedAt(s, kinds, i, Pick(s, kinds).0, Pick(s, kinds).1)
    decreases kinds
  {
    var head, rest := kinds[0], kinds[1..];
    var q := s.queues.At(head);
    if !Skipped(s, head) {
      return;
    }
    var next := if q == [] then s else Leave(s, head, DroppedCanceled);
    assert Pick(s, kinds) == Pick(next, rest);
    if i == 0 {
      if q != [] { LeaveTouchesOne(s, head, DroppedCanceled, head); }
      PickIgnores(next, rest, head);
    } else {
      forall j | 0 <= j < |rest| ensures next.queues.At(rest[j]) == s.queues.At(kinds[j + 1]) {
        if q != [] { LeaveTouchesOne(s, head, DroppedCanceled, rest[j]); }
      }
      if q != [] { LeaveTouchesOne(s, head, DroppedCanceled, rest[i - 1]); }
      PicksAt(next, rest, i - 1);
      SkippedShifts(s, next, kinds, i);
    }
  }

  lemma SkippedShifts(s: State, next: State, kinds: seq<QueueKind>, i: nat)
    requires 0 < i < |kinds| && Skipped(s, kinds[0])
    requires forall j :: 0 <= j < |kinds[1..]| ==> next.queues.At(kinds[1..][j]) == s.queues.At(kinds[j + 1])
    ensures (forall j :: 0 <= j < i ==> Skipped(s, kinds[j])) <==> forall j :: 0 <= j < i - 1 ==> Skipped(next, kinds[1..][j])
  {
    if forall j :: 0 <= j < i - 1 ==> Skipped(next, kinds[1..][j]) {
      forall j | 0 <= j < i ensures Skipped(s, kinds[j]) {
        if j > 0 { assert Skipped(next, kinds[1..][j - 1]); }
      }
    }
  }

  lemma PickOutcome(s: State, k: QueueKind)
    ensures var (t, kind) := Pick(s, DRAIN_ORDER);
            && (kind == Some(k) <==> Takes(s, k))
            && t.queues.At(k) == (if Loses(s, k) && !Takes(s, k) then s.queues.At(k)[1..] else s.queues.At(k))
            && t.left.At(k) == if Loses(s, k) && !Takes(s, k)
                               then s.left.At(k) + [Departure(s.queues.At(k)[0].id, DroppedCanceled)] else s.left.At(k)
  {
    var i := match k case Control => 0 case Message => 1 case Media => 2;
    assert DRAIN_ORDER[0] == Control && DRAIN_ORDER[1] == Message && DRAIN_ORDER[2] == Media;
    PicksAt(s, DRAIN_ORDER, i);
    assert (forall j :: 0 <= j < i ==> Skipped(s, DRAIN_ORDER[j])) <==> Reached(s, k);
  }

  /**
   * One drain, queue by queue: a queue that it comes to loses its head, cancelled or live, and the live
   * one is the envelope it tries; whether delivered or not, that envelope is gone from its queue.
   */
  lemma DrainOutcome(s: State, order: seq<string>, answers: string -> Answer, k: QueueKind)
    ensures var (t, r) := Drain(s, order, answers);
            && t.queues.At(k) == (if Loses(s, k) then s.queues.At(k)[1..] else s.queues.At(k))
            && t.left.At(k) == (if !Loses(s, k) then s.left.At(k)
                                else s.left.At(k) + [Departure(s.queues.At(k)[0].id,
                                       if !Takes(s, k) then DroppedCanceled else if r.Ok? then Delivered else DroppedFailed)])
            && t.capacities == s.capacities && t.accepted == s.accepted && t.deviceId == s.deviceId
            && (Takes(s, k) ==>
                  var id := s.queues.At(k)[0].id;
                  && r == (if order == [] then Err("transport_unavailable")
                           else if exists i :: 0 <= i < |order| && answers(order[i]) == Receipt(id, true) then Ok(id)
                           else Err("transport_delivery_failed"))
                  && t.delivered == (if r.Ok? then s.delivered + {id} else s.delivered)
                  && t.receipts == if r.Ok? then s.receipts + [id] else s.receipts)
            && ((forall l :: !Takes(s, l)) ==>
                  r == Err("transport_queue_empty") && t.delivered == s.delivered && t.receipts == s.receipts)
  {
    PickKeepsEndpoints(s, DRAIN_ORDER);
    forall l ensures Pick(s, DRAIN_ORDER).1 == Some(l) <==> Takes(s, l) { PickOutcome(s, l); }
    PickOutcome(s, k);
    if Takes(s, k) { FailuresExactlyWhen(order, answers, s.queues.At(k)[0].id); }
  }

  lemma FailuresExactlyWhen(order: seq<string>, answers: string -> Answer, id: string)
    ensures Failures(order, answers, id) < |order| <==> exists i :: 0 <= i < |order| && answers(order[i]) == Receipt(id, true)
  {
  }

  /**
   * An endpoint is accepted exactly when its peer is verified, both names are well formed and the peer is
   * the device already connected, if any; it is then healthy, whatever it was before.
   */
  lemma ConnectOutcome(s: State, endpoint: Endpoint, deviceId: string, verified: bool, other: string)
    ensures var r := Connect(s, endpoint, deviceId, verified);
            && (r.Ok? <==> verified && IsIdentifier(deviceId) && IsIdentifier(endpoint.id)
                           && s.deviceId in {None, Some(deviceId)})
            && (r.Ok? ==>
                  && r.value == s.(deviceId := Some(deviceId), endpoints := r.value.endpoints)
                  && endpoint.id in r.value.endpoints
                  && r.value.endpoints[endpoint.id] == Endpoint(endpoint.id, endpoint.rank, true)
                  && (other != endpoint.id ==>
                        && (other in r.value.endpoints <==> other in s.endpoints)
                        && (other in s.endpoints ==> r.value.endpoints[other] == s.endpoints[other])))
  {
  }

  /** Once a device is connected, no run ever connects another. */
  lemma {:induction false} IdentityStays(s: State, ops: seq<Op>)
    requires s.deviceId.Some?
    ensures RunAll(s, ops).deviceId == s.deviceId
    decreases ops
  {
    if ops != [] {
      if ops[0].DrainOp? { DrainOutcome(s, ops[0].order, ops[0].answers, Control); }
      IdentityStays(Step(s, ops[0]), ops[1..]);
    }
  }
}
